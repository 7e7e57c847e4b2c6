/** The lexer: one pass over the text, with lookahead for the semicolons it inserts. */
module Lexer {
  import opened Options
  import opened Tokens
  import opened Scanning
  import opened Spelling
  import opened Semicolons

  class Lexer {
    const bytes: string
    var pos: nat
    var lastSignificant: Kind
    var out: seq<Lexed>

    /** The last token kind is kept up to date, and only a trailing backslash in an open
        literal moves past the end, by one. */
    ghost predicate Valid()
      reads this
    {
      lastSignificant == LastKind(out) && pos <= |bytes| + 1
    }

    /** The tokens there will be in the end. */
    ghost function Final(): seq<Lexed>
      requires pos <= |bytes| + 1
      reads this
    {
      Insert(out, PiecesFrom(bytes, pos)) + [EndMark(StopsAt(bytes, pos))]
    }

    constructor (bytes: string)
      ensures Valid() && this.bytes == bytes && Final() == LexText(bytes)
      ensures pos == 0 && out == []
    {
      this.bytes := bytes;
      pos, lastSignificant, out := 0, Eof, [];
    }

    predicate AtEnd()
      reads this
    {
      pos >= |bytes|
    }

    function Peek(ahead: nat): (c: char)
      reads this
      ensures c == At(bytes, pos + ahead)
    {
      if pos + ahead >= |bytes| then '\0' else bytes[pos + ahead]
    }

    /** A token takes the place of its piece, the next one to come. */
    method Push(kind: Kind, start: nat)
      requires Valid() && kind != Error
      modifies `out, `lastSignificant
      ensures Valid() && out == old(out) + [Lexed(kind, start, pos)]
    {
      LastKindOfOne(out, Lexed(kind, start, pos));
      lastSignificant := kind;
      out := out + [Lexed(kind, start, pos)];
    }

    /** Errors are no significant tokens. */
    method EmitError(start: nat, end: nat)
      requires Valid()
      modifies `out
      ensures Valid() && out == old(out) + [Lexed(Error, start, end)]
    {
      LastKindOfOne(out, Lexed(Error, start, end));
      out := out + [Lexed(Error, start, end)];
    }

    // ----- Trivia -----

    /** Is there a lexeme here? */
    predicate AtLexeme()
      requires pos < |bytes|
      reads this
    {
      !IsBlank(bytes[pos]) && bytes[pos] != '\n' && !StartsLineComment(bytes, pos) && !StartsBlockComment(bytes, pos)
    }

    method SkipTrivia()
      requires Valid()
      modifies this
      ensures Valid() && Final() == old(Final()) && pos >= old(pos)
      ensures AtEnd() || AtLexeme()
    {
      while !AtEnd()
        invariant Valid() && Final() == old(Final()) && pos >= old(pos)
        decreases |bytes| - pos
      {
        var c := Peek(0);
        if IsBlank(c) {
          pos := pos + 1;
        } else if c == '\n' {
          SkipNewline();
        } else if c == '/' && Peek(1) == '/' {
          SkipLineComment();
        } else if c == '/' && Peek(1) == '*' {
          SkipBlockComment();
        } else {
          break;
        }
      }
    }

    method SkipNewline()
      requires Valid() && !AtEnd() && bytes[pos] == '\n'
      modifies this
      ensures Valid() && Final() == old(Final()) && pos == old(pos) + 1
    {
      var newline := pos;
      pos := pos + 1;
      var next := PeekNextKind();
      if EndsStatement(lastSignificant) && !SuppressesSemi(next) {
        Push(Semicolon, newline);
      } else {
        assert out + [] == out;
      }
    }

    method SkipLineComment()
      requires Valid() && !AtEnd() && StartsLineComment(bytes, pos)
      modifies this
      ensures Valid() && Final() == old(Final()) && pos > old(pos)
    {
      var start := pos;
      if Peek(2) == '/' && Peek(3) != '/' {
        pos := pos + 3;
        SkipLine();
        Push(DocComment, start);
      } else {
        SkipLine();
        assert out + [] == out;
      }
    }

    /** On to the end of the line. */
    method SkipLine()
      requires pos <= |bytes|
      modifies `pos
      ensures pos == LineEnd(bytes, old(pos))
    {
      while !AtEnd() && Peek(0) != '\n'
        invariant old(pos) <= pos <= |bytes|
        invariant LineEnd(bytes, old(pos)) == LineEnd(bytes, pos)
        decreases |bytes| - pos
      {
        pos := pos + 1;
      }
    }

    method SkipBlockComment()
      requires Valid() && !AtEnd() && StartsBlockComment(bytes, pos)
      modifies this
      ensures Valid() && Final() == old(Final()) && pos > old(pos)
    {
      var start := pos;
      pos := pos + 2;
      var depth := 1;
      while !AtEnd() && depth > 0
        invariant start + 2 <= pos <= |bytes| && depth >= 0
        invariant CommentEnd(bytes, start + 2, 1) == CommentEnd(bytes, pos, depth)
        invariant unchanged(`out) && unchanged(`lastSignificant)
        decreases |bytes| - pos
      {
        if Peek(0) == '/' && Peek(1) == '*' {
          depth := depth + 1;
          pos := pos + 2;
        } else if Peek(0) == '*' && Peek(1) == '/' {
          depth := depth - 1;
          pos := pos + 2;
        } else {
          pos := pos + 1;
        }
      }
      if depth > 0 {
        EmitError(start, pos);
      } else {
        assert out + [] == out;
      }
    }

    // ----- Lookahead -----

    predicate SuppressesSemi(next: Kind) {
      next == Else || next == Comma || next == RParen || next == RBracket || next == RBrace || next == Dot
      || next == Eof
    }

    /** Looks past blanks, newlines and comments, and tells what will be lexed there. */
    method PeekNextKind() returns (kind: Kind)
      requires pos <= |bytes|
      ensures kind == Coarse(NextKind(PiecesFrom(bytes, pos)))
    {
      var i := pos;
      while i < |bytes|
        invariant pos <= i <= |bytes|
        invariant NextKind(PiecesFrom(bytes, pos)) == NextKind(PiecesFrom(bytes, i))
        decreases |bytes| - i
      {
        if IsBlank(bytes[i]) || bytes[i] == '\n' {
          i := i + 1;
        } else if StartsLineComment(bytes, i) {
          i := FindLineEnd(i + 2);
        } else if StartsBlockComment(bytes, i) {
          i := FindCommentEnd(i + 2);
        } else {
          break;
        }
      }
      if i >= |bytes| {
        return Eof;
      }
      if IsAlpha(bytes[i]) || bytes[i] == '_' {
        var end := i + 1;
        while end < |bytes| && IsWordChar(bytes[end])
          invariant i < end <= |bytes|
          invariant WordEnd(bytes, i) == WordEnd(bytes, end)
        {
          end := end + 1;
        }
        WordLooksAhead(bytes[i..end]);
        return if bytes[i..end] == "else" then Else else Ident;
      }
      SymbolLooksAhead(bytes, i);
      return CoarseSymbol(bytes[i]);
    }

    method FindLineEnd(start: nat) returns (i: nat)
      requires start <= |bytes|
      ensures i == LineEnd(bytes, start)
    {
      i := start;
      while i < |bytes| && bytes[i] != '\n'
        invariant start <= i <= |bytes|
        invariant LineEnd(bytes, start) == LineEnd(bytes, i)
      {
        i := i + 1;
      }
    }

    method FindCommentEnd(start: nat) returns (i: nat)
      requires start <= |bytes|
      ensures i == CommentEnd(bytes, start, 1).0
    {
      i := start;
      var depth := 1;
      while i < |bytes| && depth > 0
        invariant start <= i <= |bytes| && depth >= 0
        invariant CommentEnd(bytes, start, 1) == CommentEnd(bytes, i, depth)
        decreases |bytes| - i
      {
        if bytes[i] == '/' && i + 1 < |bytes| && bytes[i + 1] == '*' {
          depth := depth + 1;
          i := i + 2;
        } else if bytes[i] == '*' && i + 1 < |bytes| && bytes[i + 1] == '/' {
          depth := depth - 1;
          i := i + 2;
        } else {
          i := i + 1;
        }
      }
    }

    // ----- Lexemes -----

    /** A lexeme, given by its kind and where it ends, has become the next token. */
    ghost predicate Lexes(lexeme: (Kind, nat), start: nat, before: seq<Lexed>)
      reads this
    {
      pos == lexeme.1 && out == before + [Lexed(lexeme.0, start, pos)]
    }

    method SkipWord()
      requires pos <= |bytes|
      modifies `pos
      ensures pos == WordEnd(bytes, old(pos))
    {
      while !AtEnd() && IsWordChar(Peek(0))
        invariant old(pos) <= pos <= |bytes|
        invariant WordEnd(bytes, old(pos)) == WordEnd(bytes, pos)
        decreases |bytes| - pos
      {
        pos := pos + 1;
      }
    }

    method SkipDigits()
      requires pos <= |bytes|
      modifies `pos
      ensures pos == DigitsEnd(bytes, old(pos))
    {
      while !AtEnd() && (IsDigit(Peek(0)) || Peek(0) == '_')
        invariant old(pos) <= pos <= |bytes|
        invariant DigitsEnd(bytes, old(pos)) == DigitsEnd(bytes, pos)
        decreases |bytes| - pos
      {
        pos := pos + 1;
      }
    }

    method LexIdentifier()
      requires Valid() && !AtEnd() && (IsAlpha(bytes[pos]) || bytes[pos] == '_')
      modifies this
      ensures Valid() && Lexes(LexemeAt(bytes, old(pos)), old(pos), old(out))
    {
      var start := pos;
      SkipWord();
      Push(WordKind(bytes[start..pos]), start);
    }

    method LexNumber()
      requires Valid() && !AtEnd() && IsDigit(bytes[pos])
      modifies this
      ensures Valid() && Lexes(NumberAt(bytes, old(pos)), old(pos), old(out))
    {
      if Peek(0) == '0' && IsBaseMark(Peek(1)) {
        LexBased();
      } else {
        LexDecimal();
      }
    }

    method LexBased()
      requires Valid() && pos + 1 < |bytes|
      modifies this
      ensures Valid() && Lexes(BasedNumber(bytes, old(pos)), old(pos), old(out))
    {
      var start := pos;
      var base := Peek(1);
      pos := pos + 2;
      var digitCount := 0;
      var trailingUnderscore := false;
      while !AtEnd() && IsBaseDigit(base, Peek(0))
        invariant start + 2 <= pos <= |bytes|
        invariant BaseEnd(bytes, start + 2, base) == BaseEnd(bytes, pos, base)
        invariant digitCount >= 0 && BaseCount(bytes, start + 2, base) == digitCount + BaseCount(bytes, pos, base)
        invariant trailingUnderscore == (pos > start + 2 && bytes[pos - 1] == '_')
        invariant unchanged(`out) && unchanged(`lastSignificant)
        decreases |bytes| - pos
      {
        trailingUnderscore := Peek(0) == '_';
        if !trailingUnderscore {
          digitCount := digitCount + 1;
        }
        pos := pos + 1;
      }
      if digitCount == 0 {
        SkipWord();
        EmitError(start, pos);
      } else if trailingUnderscore && !IsAlpha(Peek(0)) {
        EmitError(start, pos);
      } else if IsDigit(Peek(0)) {
        SkipWord();
        EmitError(start, pos);
      } else {
        SkipWord();
        Push(Integer, start);
      }
    }

    method LexDecimal()
      requires Valid() && !AtEnd() && IsDigit(bytes[pos])
      modifies this
      ensures Valid() && Lexes(DecimalNumber(bytes, old(pos)), old(pos), old(out))
    {
      var start := pos;
      SkipDigits();
      var fraction := SkipFraction();
      var exponent := SkipExponent();
      if bytes[pos - 1] == '_' && !IsAlpha(Peek(0)) {
        EmitError(start, pos);
        return;
      }
      SkipWord();
      Push(if fraction || exponent then Float else Integer, start);
    }

    method SkipFraction() returns (found: bool)
      requires pos <= |bytes|
      modifies `pos
      ensures pos == FractionEnd(bytes, old(pos)) && found == (pos > old(pos))
    {
      found := Peek(0) == '.' && Peek(1) != '.';
      if found {
        pos := pos + 1;
        SkipDigits();
      }
    }

    method SkipExponent() returns (found: bool)
      requires pos <= |bytes|
      modifies `pos
      ensures pos == ExponentEnd(bytes, old(pos)) && found == (pos > old(pos))
    {
      found := (Peek(0) == 'e' || Peek(0) == 'E')
        && (IsDigit(Peek(1)) || ((Peek(1) == '+' || Peek(1) == '-') && IsDigit(Peek(2))));
      if found {
        pos := pos + 1;
        if Peek(0) == '+' || Peek(0) == '-' {
          pos := pos + 1;
        }
        SkipDigits();
      }
    }

    /** The inside of a literal up to and with its closing quote. */
    method SkipQuoted(quote: char) returns (closed: bool, badEscape: bool, empty: bool)
      requires pos <= |bytes|
      modifies `pos
      ensures Quoted(pos, closed, badEscape, empty) == ScanQuoted(bytes, old(pos), quote, false, true)
    {
      badEscape, empty := false, true;
      while !AtEnd()
        invariant pos <= |bytes| + 1
        invariant ScanQuoted(bytes, old(pos), quote, false, true) == ScanQuoted(bytes, pos, quote, badEscape, empty)
        decreases |bytes| - pos
      {
        var c := Peek(0);
        if c == quote {
          pos := pos + 1;
          return true, badEscape, empty;
        }
        if c == '\n' || (c == '\\' && Peek(1) == '\n') {
          break;
        }
        if c == '\\' {
          var bad := SkipEscape();
          badEscape := badEscape || bad;
        } else {
          pos := pos + 1;
        }
        empty := false;
      }
      return false, badEscape, empty;
    }

    /** One escape: braced hexadecimal, or the backslash and whatever comes next, even when
        nothing does. */
    method SkipEscape() returns (bad: bool)
      requires !AtEnd()
      modifies `pos
      ensures if At(bytes, old(pos) + 1) == 'u' && UnicodeEnd(bytes, old(pos) + 2).Some?
              then pos == UnicodeEnd(bytes, old(pos) + 2).value && !bad
              else pos == old(pos) + 2 && bad == !IsEscape(At(bytes, old(pos) + 1))
    {
      if Peek(1) == 'u' {
        var i := pos + 2;
        if i < |bytes| && bytes[i] == '{' {
          i := i + 1;
          var hex := i;
          while i < |bytes| && IsHexDigit(bytes[i])
            invariant hex <= i <= |bytes|
            invariant HexEnd(bytes, hex) == HexEnd(bytes, i)
          {
            i := i + 1;
          }
          if i != hex && i < |bytes| && bytes[i] == '}' {
            pos := i + 1;
            return false;
          }
        }
      }
      bad := !IsEscape(Peek(1));
      pos := pos + 2;
    }

    method LexString()
      requires Valid() && !AtEnd() && bytes[pos] == '"'
      modifies this
      ensures Valid() && Lexes(StringAt(bytes, old(pos)), old(pos), old(out))
    {
      var start := pos;
      pos := pos + 1;
      var closed, badEscape, _ := SkipQuoted('"');
      if !closed || badEscape {
        EmitError(start, pos);
      } else {
        Push(String, start);
      }
    }

    method LexChar()
      requires Valid() && !AtEnd() && bytes[pos] == '\''
      modifies this
      ensures Valid() && Lexes(CharAt(bytes, old(pos)), old(pos), old(out))
    {
      var start := pos;
      pos := pos + 1;
      var closed, badEscape, empty := SkipQuoted('\'');
      if !closed || empty || badEscape {
        EmitError(start, pos);
      } else {
        Push(Char, start);
      }
    }

    /** A symbol, or a stray scalar. */
    method LexSymbol()
      requires Valid() && !AtEnd() && bytes[pos] != '\0' && bytes[pos] != '"' && bytes[pos] != '\''
      requires !IsAlpha(bytes[pos]) && bytes[pos] != '_' && !IsDigit(bytes[pos])
      modifies this
      ensures Valid() && Lexes(LexemeAt(bytes, old(pos)), old(pos), old(out))
    {
      var start := pos;
      var (kind, width) := Symbol(Peek(0), Peek(1), Peek(2));
      if kind == Error {
        if pos + width > |bytes| {
          width := |bytes| - pos;
        }
        EmitError(start, start + width);
        pos := pos + width;
      } else {
        pos := pos + width;
        Push(kind, start);
      }
    }

    /** The tokens of the text: those of its pieces, with semicolons inserted, and one
        end-of-file token. */
    method Tokenize() returns (tokens: seq<Lexed>)
      requires Valid() && pos == 0 && out == []
      modifies this
      ensures tokens == LexText(bytes)
    {
      SkipTrivia();
      while !AtEnd()
        invariant Valid() && Final() == old(Final())
        invariant AtEnd() || AtLexeme()
        decreases |bytes| - pos
      {
        LexOne();
        SkipTrivia();
      }
      return out + [EndMark(pos)];
    }

    method LexOne()
      requires Valid() && !AtEnd() && AtLexeme()
      modifies this
      ensures Valid() && Final() == old(Final()) && pos > old(pos)
    {
      var c := Peek(0);
      if c == '\0' {
        pos := pos + 1;
        EmitError(pos - 1, pos);
      } else if IsAlpha(c) || c == '_' {
        LexIdentifier();
      } else if IsDigit(c) {
        LexNumber();
      } else if c == '"' {
        LexString();
      } else if c == '\'' {
        LexChar();
      } else {
        LexSymbol();
      }
    }
  }
}
