/** What source text consists of: its newlines, comments and lexemes, read without
    semicolon insertion. */
module Scanning {
  import opened Options
  import opened Tokens
  import opened Spelling

  // ----- Characters -----

  predicate IsHexDigit(c: char) {
    IsDigit(c) || 'a' <= c <= 'f' || 'A' <= c <= 'F'
  }

  predicate IsBlank(c: char) {
    c == ' ' || c == '\t' || c == '\r'
  }

  predicate IsEscape(c: char) {
    c == 'n' || c == 't' || c == 'r' || c == '\\' || c == '"' || c == '\'' || c == '0'
  }

  /** The character at an index; a zero past the end. */
  function At(b: string, i: nat): char {
    if i < |b| then b[i] else '\0'
  }

  // ----- Runs of characters -----

  /** Where a run of word characters ends. */
  function WordEnd(b: string, i: nat): (j: nat)
    ensures i <= j && (i <= |b| ==> j <= |b|)
    decreases |b| - i
  {
    if IsWordChar(At(b, i)) then WordEnd(b, i + 1) else i
  }

  /** Where a run of digits and underscores ends. */
  function DigitsEnd(b: string, i: nat): (j: nat)
    ensures i <= j && (i <= |b| ==> j <= |b|)
    decreases |b| - i
  {
    if IsDigit(At(b, i)) || At(b, i) == '_' then DigitsEnd(b, i + 1) else i
  }

  predicate IsBaseMark(c: char) {
    c == 'b' || c == 'B' || c == 'o' || c == 'O' || c == 'x' || c == 'X'
  }

  predicate IsBaseDigit(base: char, c: char) {
    if c == '_' then true
    else if base == 'b' || base == 'B' then c == '0' || c == '1'
    else if base == 'o' || base == 'O' then '0' <= c <= '7'
    else IsHexDigit(c)
  }

  function BaseEnd(b: string, i: nat, base: char): (j: nat)
    ensures i <= j && (i <= |b| ==> j <= |b|)
    decreases |b| - i
  {
    if IsBaseDigit(base, At(b, i)) then BaseEnd(b, i + 1, base) else i
  }

  /** The digits, without underscores, up to `BaseEnd`. */
  function BaseCount(b: string, i: nat, base: char): nat
    decreases |b| - i
  {
    if IsBaseDigit(base, At(b, i)) then BaseCount(b, i + 1, base) + if At(b, i) == '_' then 0 else 1 else 0
  }

  function HexEnd(b: string, i: nat): (j: nat)
    ensures i <= j && (i <= |b| ==> j <= |b|)
    decreases |b| - i
  {
    if IsHexDigit(At(b, i)) then HexEnd(b, i + 1) else i
  }

  function LineEnd(b: string, i: nat): (j: nat)
    ensures i <= j && (i <= |b| ==> j <= |b|)
    decreases |b| - i
  {
    if i < |b| && b[i] != '\n' then LineEnd(b, i + 1) else i
  }

  /** Where a block comment ends, from inside `depth` levels of it, and whether it is closed. */
  function CommentEnd(b: string, i: nat, depth: nat): (r: (nat, bool))
    ensures i <= r.0 && (i <= |b| ==> r.0 <= |b|) && (!r.1 ==> r.0 >= |b|)
    decreases |b| - i
  {
    if depth == 0 || i >= |b| then (i, depth == 0)
    else if At(b, i) == '/' && At(b, i + 1) == '*' then CommentEnd(b, i + 2, depth + 1)
    else if At(b, i) == '*' && At(b, i + 1) == '/' then CommentEnd(b, i + 2, depth - 1)
    else CommentEnd(b, i + 1, depth)
  }

  predicate StartsLineComment(b: string, i: nat) {
    At(b, i) == '/' && At(b, i + 1) == '/'
  }

  predicate StartsBlockComment(b: string, i: nat) {
    At(b, i) == '/' && At(b, i + 1) == '*'
  }

  /** Exactly three slashes make a doc comment. */
  predicate IsDoc(b: string, i: nat) {
    At(b, i + 2) == '/' && At(b, i + 3) != '/'
  }

  // ----- Lexemes -----

  predicate IsKeywordKind(kind: Kind) {
    kind < Integer || kind == True || kind == False
  }

  datatype Group = ToE | ToL | ToS | ToW

  /** Which part of the table a keyword is in. */
  function GroupOf(kind: Kind): Group {
    if (
      || kind == SelfType || kind == As || kind == Async || kind == Await || kind == Bool
      || kind == Break || kind == Comp || kind == Const || kind == Continue || kind == Dyn
      || kind == Else || kind == Enum || kind == Extern
    ) then ToE
    else if (
      || kind == F32 || kind == F64 || kind == False || kind == Fn || kind == For
      || kind == I128 || kind == I16 || kind == I32 || kind == I64 || kind == I8
      || kind == If || kind == Impl || kind == In || kind == Isize || kind == Loop
    ) then ToL
    else if (
      || kind == Match || kind == Mod || kind == Mut || kind == Package || kind == Pub
      || kind == Register || kind == Ret || kind == Self || kind == Static || kind == Str
      || kind == Struct || kind == Super
    ) then ToS
    else ToW
  }

  // The keywords, in alphabetical order.

  function KeywordsToE(word: string): (r: Option<Kind>)
    ensures r.Some? ==> word != "" && 'S' <= word[0] <= 'e'
    ensures r == Some(Else) <==> word == "else"
    ensures r.Some? ==> IsKeywordKind(r.value) && GroupOf(r.value) == ToE
  {
    if word == "Self" then Some(SelfType)
    else if word == "as" then Some(As)
    else if word == "async" then Some(Async)
    else if word == "await" then Some(Await)
    else if word == "bool" then Some(Bool)
    else if word == "break" then Some(Break)
    else if word == "comp" then Some(Comp)
    else if word == "const" then Some(Const)
    else if word == "continue" then Some(Continue)
    else if word == "dyn" then Some(Dyn)
    else if word == "else" then Some(Else)
    else if word == "enum" then Some(Enum)
    else if word == "extern" then Some(Extern)
    else None
  }

  function KeywordsToL(word: string): (r: Option<Kind>)
    ensures r.Some? ==> word != "" && 'f' <= word[0] <= 'l'
    ensures r != Some(Else)
    ensures r.Some? ==> IsKeywordKind(r.value) && GroupOf(r.value) == ToL
  {
    if word == "f32" then Some(F32)
    else if word == "f64" then Some(F64)
    else if word == "false" then Some(False)
    else if word == "fn" then Some(Fn)
    else if word == "for" then Some(For)
    else if word == "i128" then Some(I128)
    else if word == "i16" then Some(I16)
    else if word == "i32" then Some(I32)
    else if word == "i64" then Some(I64)
    else if word == "i8" then Some(I8)
    else if word == "if" then Some(If)
    else if word == "impl" then Some(Impl)
    else if word == "in" then Some(In)
    else if word == "isize" then Some(Isize)
    else if word == "loop" then Some(Loop)
    else None
  }

  function KeywordsToS(word: string): (r: Option<Kind>)
    ensures r.Some? ==> word != "" && 'm' <= word[0] <= 's'
    ensures r != Some(Else)
    ensures r.Some? ==> IsKeywordKind(r.value) && GroupOf(r.value) == ToS
  {
    if word == "match" then Some(Match)
    else if word == "mod" then Some(Mod)
    else if word == "mut" then Some(Mut)
    else if word == "package" then Some(Package)
    else if word == "pub" then Some(Pub)
    else if word == "register" then Some(Register)
    else if word == "ret" then Some(Ret)
    else if word == "self" then Some(Self)
    else if word == "static" then Some(Static)
    else if word == "str" then Some(Str)
    else if word == "struct" then Some(Struct)
    else if word == "super" then Some(Super)
    else None
  }

  function KeywordsToW(word: string): (r: Option<Kind>)
    ensures r.Some? ==> word != "" && 't' <= word[0] <= 'w'
    ensures r != Some(Else)
    ensures r.Some? ==> IsKeywordKind(r.value) && GroupOf(r.value) == ToW
  {
    if word == "true" then Some(True)
    else if word == "u128" then Some(U128)
    else if word == "u16" then Some(U16)
    else if word == "u32" then Some(U32)
    else if word == "u64" then Some(U64)
    else if word == "u8" then Some(U8)
    else if word == "union" then Some(Union)
    else if word == "unsafe" then Some(Unsafe)
    else if word == "use" then Some(Use)
    else if word == "usize" then Some(Usize)
    else if word == "where" then Some(Where)
    else if word == "while" then Some(While)
    else None
  }

  /** The keyword a word is, or an identifier. */
  function LookupKeyword(word: string): (kind: Kind)
    ensures kind == Else <==> word == "else"
    ensures kind == Ident || IsKeywordKind(kind)
  {
    if KeywordsToE(word).Some? then KeywordsToE(word).value
    else if KeywordsToL(word).Some? then KeywordsToL(word).value
    else if KeywordsToS(word).Some? then KeywordsToS(word).value
    else if KeywordsToW(word).Some? then KeywordsToW(word).value
    else Ident
  }

  // How each keyword is spelled, group by group.

  function SpelledToE(kind: Kind): string
    requires GroupOf(kind) == ToE
  {
    if kind == SelfType then "Self"
    else if kind == As then "as"
    else if kind == Async then "async"
    else if kind == Await then "await"
    else if kind == Bool then "bool"
    else if kind == Break then "break"
    else if kind == Comp then "comp"
    else if kind == Const then "const"
    else if kind == Continue then "continue"
    else if kind == Dyn then "dyn"
    else if kind == Else then "else"
    else if kind == Enum then "enum"
    else "extern"
  }

  lemma SpellingToE(kind: Kind, word: string)
    requires GroupOf(kind) == ToE
    ensures KeywordsToE(word) == Some(kind) <==> word == SpelledToE(kind)
  {
  }

  function SpelledToL(kind: Kind): string
    requires GroupOf(kind) == ToL
  {
    if kind == F32 then "f32"
    else if kind == F64 then "f64"
    else if kind == False then "false"
    else if kind == Fn then "fn"
    else if kind == For then "for"
    else if kind == I128 then "i128"
    else if kind == I16 then "i16"
    else if kind == I32 then "i32"
    else if kind == I64 then "i64"
    else if kind == I8 then "i8"
    else if kind == If then "if"
    else if kind == Impl then "impl"
    else if kind == In then "in"
    else if kind == Isize then "isize"
    else "loop"
  }

  lemma SpellingToL(kind: Kind, word: string)
    requires GroupOf(kind) == ToL
    ensures KeywordsToL(word) == Some(kind) <==> word == SpelledToL(kind)
  {
  }

  function SpelledToS(kind: Kind): string
    requires GroupOf(kind) == ToS
  {
    if kind == Match then "match"
    else if kind == Mod then "mod"
    else if kind == Mut then "mut"
    else if kind == Package then "package"
    else if kind == Pub then "pub"
    else if kind == Register then "register"
    else if kind == Ret then "ret"
    else if kind == Self then "self"
    else if kind == Static then "static"
    else if kind == Str then "str"
    else if kind == Struct then "struct"
    else "super"
  }

  lemma SpellingToS(kind: Kind, word: string)
    requires GroupOf(kind) == ToS
    ensures KeywordsToS(word) == Some(kind) <==> word == SpelledToS(kind)
  {
  }

  function SpelledToW(kind: Kind): string
    requires IsKeywordKind(kind) && GroupOf(kind) == ToW
  {
    if kind == True then "true"
    else if kind == U128 then "u128"
    else if kind == U16 then "u16"
    else if kind == U32 then "u32"
    else if kind == U64 then "u64"
    else if kind == U8 then "u8"
    else if kind == Union then "union"
    else if kind == Unsafe then "unsafe"
    else if kind == Use then "use"
    else if kind == Usize then "usize"
    else if kind == Where then "where"
    else "while"
  }

  lemma SpellingToW(kind: Kind, word: string)
    requires IsKeywordKind(kind) && GroupOf(kind) == ToW
    ensures KeywordsToW(word) == Some(kind) <==> word == SpelledToW(kind)
  {
  }

  /** The spelling of a keyword. */
  function KeywordText(kind: Kind): string
    requires IsKeywordKind(kind)
  {
    if GroupOf(kind) == ToE then SpelledToE(kind)
    else if GroupOf(kind) == ToL then SpelledToL(kind)
    else if GroupOf(kind) == ToS then SpelledToS(kind)
    else SpelledToW(kind)
  }

  lemma LookupToE(word: string, kind: Kind)
    requires GroupOf(kind) == ToE
    ensures LookupKeyword(word) == kind <==> KeywordsToE(word) == Some(kind)
  {
  }

  lemma LookupToL(word: string, kind: Kind)
    requires GroupOf(kind) == ToL
    ensures LookupKeyword(word) == kind <==> KeywordsToL(word) == Some(kind)
  {
  }

  lemma LookupToS(word: string, kind: Kind)
    requires GroupOf(kind) == ToS
    ensures LookupKeyword(word) == kind <==> KeywordsToS(word) == Some(kind)
  {
  }

  lemma LookupToW(word: string, kind: Kind)
    requires IsKeywordKind(kind) && GroupOf(kind) == ToW
    ensures LookupKeyword(word) == kind <==> KeywordsToW(word) == Some(kind)
  {
  }

  /** A word is looked up as a keyword exactly if it is how that keyword is spelled. */
  lemma KeywordsAreSpelled(word: string, kind: Kind)
    requires IsKeywordKind(kind)
    ensures LookupKeyword(word) == kind <==> word == KeywordText(kind)
  {
    if GroupOf(kind) == ToE {
      SpellingToE(kind, word);
      LookupToE(word, kind);
    } else if GroupOf(kind) == ToL {
      SpellingToL(kind, word);
      LookupToL(word, kind);
    } else if GroupOf(kind) == ToS {
      SpellingToS(kind, word);
      LookupToS(word, kind);
    } else {
      SpellingToW(kind, word);
      LookupToW(word, kind);
    }
  }

  function WordKind(word: string): (kind: Kind)
    ensures kind == Else <==> word == "else"
    ensures kind == Ident || kind == Underscore || IsKeywordKind(kind)
  {
    if word == "_" then Underscore else LookupKeyword(word)
  }

  /** A number: its kind, or `Error`, and where it ends. */
  function NumberAt(b: string, i: nat): (r: (Kind, nat))
    requires i < |b| && IsDigit(b[i])
    ensures i < r.1 <= |b|
    ensures r.0 == Integer || r.0 == Float || r.0 == Error
  {
    if b[i] == '0' && IsBaseMark(At(b, i + 1)) then BasedNumber(b, i) else DecimalNumber(b, i)
  }

  function BasedNumber(b: string, i: nat): (r: (Kind, nat))
    requires i + 1 < |b|
    ensures i < r.1 <= |b|
    ensures r.0 == Integer || r.0 == Error
  {
    var d := BaseEnd(b, i + 2, b[i + 1]);
    if BaseCount(b, i + 2, b[i + 1]) == 0 then (Error, WordEnd(b, d))
    else if b[d - 1] == '_' && !IsAlpha(At(b, d)) then (Error, d)
    else if IsDigit(At(b, d)) then (Error, WordEnd(b, d))
    else (Integer, WordEnd(b, d))
  }

  function FractionEnd(b: string, i: nat): (j: nat)
    ensures i <= j && (i <= |b| ==> j <= |b|)
  {
    if At(b, i) == '.' && At(b, i + 1) != '.' then DigitsEnd(b, i + 1) else i
  }

  function ExponentEnd(b: string, i: nat): (j: nat)
    ensures i <= j && (i <= |b| ==> j <= |b|)
  {
    if At(b, i) != 'e' && At(b, i) != 'E' then i
    else if IsDigit(At(b, i + 1)) then DigitsEnd(b, i + 1)
    else if (At(b, i + 1) == '+' || At(b, i + 1) == '-') && IsDigit(At(b, i + 2)) then DigitsEnd(b, i + 2)
    else i
  }

  function DecimalNumber(b: string, i: nat): (r: (Kind, nat))
    requires i < |b| && IsDigit(b[i])
    ensures i < r.1 <= |b|
    ensures r.0 == Integer || r.0 == Float || r.0 == Error
  {
    var whole := DigitsEnd(b, i);
    var fraction := FractionEnd(b, whole);
    var end := ExponentEnd(b, fraction);
    assert DigitsEnd(b, i) == DigitsEnd(b, i + 1);
    if b[end - 1] == '_' && !IsAlpha(At(b, end)) then (Error, end)
    else (if end > whole then Float else Integer, WordEnd(b, end))
  }

  /** How far a quoted literal goes, whether it is closed, and what is wrong with it. */
  datatype Quoted = Quoted(end: nat, closed: bool, badEscape: bool, empty: bool)

  /** The end of a braced hexadecimal escape that starts at `i`. */
  function UnicodeEnd(b: string, i: nat): (r: Option<nat>)
    ensures r.Some? ==> i < r.value <= |b|
  {
    if At(b, i) == '{' && HexEnd(b, i + 1) > i + 1 && At(b, HexEnd(b, i + 1)) == '}' then Some(HexEnd(b, i + 1) + 1)
    else None
  }

  /** The rest of a quoted literal.  An escape is two characters wide even when the text
      ends after the backslash. */
  function ScanQuoted(b: string, i: nat, quote: char, badEscape: bool, empty: bool): (q: Quoted)
    ensures i <= q.end && (i <= |b| + 1 ==> q.end <= |b| + 1)
    ensures q.closed ==> q.end <= |b|
    decreases |b| - i
  {
    if i >= |b| then Quoted(i, false, badEscape, empty)
    else if b[i] == quote then Quoted(i + 1, true, badEscape, empty)
    else if b[i] == '\n' then Quoted(i, false, badEscape, empty)
    else if b[i] == '\\' then
      if At(b, i + 1) == '\n' then Quoted(i, false, badEscape, empty)
      else if At(b, i + 1) == 'u' && UnicodeEnd(b, i + 2).Some? then
        ScanQuoted(b, UnicodeEnd(b, i + 2).value, quote, badEscape, false)
      else
        ScanQuoted(b, i + 2, quote, badEscape || !IsEscape(At(b, i + 1)), false)
    else ScanQuoted(b, i + 1, quote, badEscape, false)
  }

  function StringAt(b: string, i: nat): (r: (Kind, nat))
    requires i < |b|
    ensures i < r.1 <= |b| + 1 && (r.0 == String || r.0 == Error) && (r.0 != Error ==> r.1 <= |b|)
  {
    var q := ScanQuoted(b, i + 1, '"', false, true);
    (if !q.closed || q.badEscape then Error else String, q.end)
  }

  function CharAt(b: string, i: nat): (r: (Kind, nat))
    requires i < |b|
    ensures i < r.1 <= |b| + 1 && (r.0 == Char || r.0 == Error) && (r.0 != Error ==> r.1 <= |b|)
  {
    var q := ScanQuoted(b, i + 1, '\'', false, true);
    (if !q.closed || q.empty || q.badEscape then Error else Char, q.end)
  }

  /** The symbol that `c` starts when `n` and `m` come next, and its width. */
  function Symbol(c: char, n: char, m: char): (r: (Kind, nat))
    ensures 0 < r.1 && r.0 != Eof && r.0 != DocComment && r.0 != Ident && r.0 != Integer && !IsKeywordKind(r.0)
  {
    if c == '(' then (LParen, 1)
    else if c == ')' then (RParen, 1)
    else if c == '{' then (LBrace, 1)
    else if c == '}' then (RBrace, 1)
    else if c == '[' then (LBracket, 1)
    else if c == ']' then (RBracket, 1)
    else if c == ',' then (Comma, 1)
    else if c == ';' then (Semicolon, 1)
    else if c == '?' then (Question, 1)
    else if c == '#' then (Hash, 1)
    else if c == '~' then (Tilde, 1)
    else if c == '.' then
      if n == '.' && m == '=' then (DotDotEq, 3)
      else if n == '.' && m == '<' then (DotDotLess, 3)
      else if n == '.' then (DotDot, 2)
      else (Dot, 1)
    else if c == ':' then
      if n == ':' then (ColonColon, 2) else if n == '=' then (ColonEq, 2) else (Colon, 1)
    else if c == '=' then
      if n == '=' then (EqEq, 2) else if n == '>' then (FatArrow, 2) else (Eq, 1)
    else if c == '!' then if n == '=' then (BangEq, 2) else (Bang, 1)
    else if c == '>' then
      if n == '>' && m == '=' then (GreaterGreaterEq, 3)
      else if n == '>' then (GreaterGreater, 2)
      else if n == '=' then (GreaterEq, 2)
      else (Greater, 1)
    else if c == '<' then
      if n == '<' && m == '=' then (LessLessEq, 3)
      else if n == '<' then (LessLess, 2)
      else if n == '=' then (LessEq, 2)
      else (Less, 1)
    else if c == '+' then if n == '=' then (PlusEq, 2) else (Plus, 1)
    else if c == '-' then if n == '=' then (MinusEq, 2) else if n == '>' then (Arrow, 2) else (Minus, 1)
    else if c == '*' then
      if n == '*' && m == '=' then (StarStarEq, 3)
      else if n == '*' then (StarStar, 2)
      else if n == '=' then (StarEq, 2)
      else (Star, 1)
    else if c == '/' then if n == '=' then (SlashEq, 2) else (Slash, 1)
    else if c == '%' then if n == '=' then (PercentEq, 2) else (Percent, 1)
    else if c == '&' then if n == '&' then (AmpAmp, 2) else if n == '=' then (AmpEq, 2) else (Amp, 1)
    else if c == '|' then if n == '|' then (PipePipe, 2) else if n == '=' then (PipeEq, 2) else (Pipe, 1)
    else if c == '^' then if n == '=' then (CaretEq, 2) else (Caret, 1)
    else (Error, ScalarWidth(c))
  }

  /** The width that the first byte of a UTF-8 scalar announces. */
  function ScalarWidth(c: char): nat {
    if 0xC0 <= c as int < 0xE0 then 2
    else if 0xE0 <= c as int < 0xF0 then 3
    else if 0xF0 <= c as int < 0xF8 then 4
    else 1
  }

  /** The lexeme at an index: its kind and where it ends. */
  function LexemeAt(b: string, i: nat): (r: (Kind, nat))
    requires i < |b|
    ensures i < r.1 <= |b| + 1 && (r.1 == |b| + 1 ==> r.0 == Error && (b[i] == '"' || b[i] == '\''))
    ensures r.0 != Eof && r.0 != DocComment
  {
    var c := b[i];
    if c == '\0' then (Error, i + 1)
    else if IsAlpha(c) || c == '_' then
      assert WordEnd(b, i) == WordEnd(b, i + 1);
      (WordKind(b[i..WordEnd(b, i)]), WordEnd(b, i))
    else if IsDigit(c) then NumberAt(b, i)
    else if c == '"' then StringAt(b, i)
    else if c == '\'' then CharAt(b, i)
    else
      var (kind, width) := Symbol(c, At(b, i + 1), At(b, i + 2));
      (kind, if kind == Error && i + width > |b| then |b| else i + width)
  }

  // ----- The whole text -----

  datatype Piece =
    | Newline(start: nat, end: nat)
    | Comment(isDoc: bool, start: nat, end: nat)
    | OpenComment(start: nat, end: nat)
    | Lexeme(kind: Kind, start: nat, end: nat)

  datatype Pieces = Nil | Cons(head: Piece, tail: Pieces)

  /** The pieces from an index on. */
  function PiecesFrom(b: string, i: nat): Pieces
    decreases |b| - i
  {
    if i >= |b| then Nil
    else if IsBlank(b[i]) then PiecesFrom(b, i + 1)
    else Cons(PieceAt(b, i), PiecesFrom(b, PieceAt(b, i).end))
  }

  function PieceAt(b: string, i: nat): (p: Piece)
    requires i < |b| && !IsBlank(b[i])
    ensures p.start == i < p.end <= |b| + 1
    ensures p.end == |b| + 1 ==> p.Lexeme? && p.kind == Error && (b[i] == '"' || b[i] == '\'')
    ensures p.Newline? ==> p.end == i + 1
  {
    if b[i] == '\n' then Newline(i, i + 1)
    else if StartsLineComment(b, i) then Comment(IsDoc(b, i), i, LineEnd(b, i + 2))
    else if StartsBlockComment(b, i) then
      var (end, closed) := CommentEnd(b, i + 2, 1);
      if closed then Comment(false, i, end) else OpenComment(i, end)
    else Lexeme(LexemeAt(b, i).0, i, LexemeAt(b, i).1)
  }

  /** Where reading stops: the end of the text, unless the last piece goes beyond it. */
  function StopsAt(b: string, i: nat): (j: nat)
    requires i <= |b| + 1
    ensures i <= j && |b| <= j <= |b| + 1
    decreases |b| - i
  {
    if i >= |b| then i
    else if IsBlank(b[i]) then StopsAt(b, i + 1)
    else StopsAt(b, PieceAt(b, i).end)
  }
}
