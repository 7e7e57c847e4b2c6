/** How operators and delimiters are spelled, and that each lexeme of them is the longest
    spelling that starts where it does. */
module Symbols {
  import opened Tokens
  import opened Scanning
  import opened Spelling

  predicate IsSymbolKind(kind: Kind) {
    Plus <= kind <= Hash
  }

  function ArithmeticText(kind: Kind): string {
    if kind == Plus then "+"
    else if kind == Minus then "-"
    else if kind == Star then "*"
    else if kind == Slash then "/"
    else if kind == Percent then "%"
    else if kind == StarStar then "**"
    else if kind == Amp then "&"
    else if kind == Pipe then "|"
    else if kind == Caret then "^"
    else if kind == Tilde then "~"
    else if kind == LessLess then "<<"
    else ">>"
  }

  function AssignmentText(kind: Kind): string {
    if kind == PlusEq then "+="
    else if kind == MinusEq then "-="
    else if kind == StarEq then "*="
    else if kind == SlashEq then "/="
    else if kind == PercentEq then "%="
    else if kind == StarStarEq then "**="
    else if kind == AmpEq then "&="
    else if kind == PipeEq then "|="
    else if kind == CaretEq then "^="
    else if kind == LessLessEq then "<<="
    else if kind == GreaterGreaterEq then ">>="
    else if kind == ColonEq then ":="
    else "="
  }

  function LogicText(kind: Kind): string {
    if kind == EqEq then "=="
    else if kind == Bang then "!"
    else if kind == AmpAmp then "&&"
    else if kind == PipePipe then "||"
    else if kind == BangEq then "!="
    else if kind == Greater then ">"
    else if kind == Less then "<"
    else if kind == GreaterEq then ">="
    else if kind == LessEq then "<="
    else if kind == Arrow then "->"
    else "=>"
  }

  function PunctuationText(kind: Kind): string {
    if kind == Colon then ":"
    else if kind == ColonColon then "::"
    else if kind == Comma then ","
    else if kind == Dot then "."
    else if kind == DotDot then ".."
    else if kind == DotDotEq then "..="
    else if kind == DotDotLess then "..<"
    else if kind == LParen then "("
    else if kind == RParen then ")"
    else if kind == LBrace then "{"
    else if kind == RBrace then "}"
    else if kind == LBracket then "["
    else if kind == RBracket then "]"
    else if kind == Question then "?"
    else if kind == Semicolon then ";"
    else "#"
  }

  /** The spelling of a symbol. */
  function SymbolText(kind: Kind): string
    requires IsSymbolKind(kind)
  {
    if kind < PlusEq then ArithmeticText(kind)
    else if kind < EqEq then AssignmentText(kind)
    else if kind < Colon then LogicText(kind)
    else PunctuationText(kind)
  }

  /** Does the spelling begin with these characters, as far as it goes? */
  predicate Begins(text: string, c: char, n: char, m: char) {
    && 0 < |text| <= 3 && text[0] == c && (|text| > 1 ==> text[1] == n) && (|text| > 2 ==> text[2] == m)
  }

  lemma ArithmeticFits(kind: Kind, c: char, n: char, m: char)
    requires Plus <= kind < PlusEq && Begins(ArithmeticText(kind), c, n, m)
    ensures var (found, width) := Symbol(c, n, m);
      found != Error && (if found == kind then width == |ArithmeticText(kind)| else width > |ArithmeticText(kind)|)
  {
  }

  lemma AssignmentFits(kind: Kind, c: char, n: char, m: char)
    requires PlusEq <= kind < EqEq && Begins(AssignmentText(kind), c, n, m)
    ensures var (found, width) := Symbol(c, n, m);
      found != Error && (if found == kind then width == |AssignmentText(kind)| else width > |AssignmentText(kind)|)
  {
  }

  lemma LogicFits(kind: Kind, c: char, n: char, m: char)
    requires EqEq <= kind < Colon && Begins(LogicText(kind), c, n, m)
    ensures var (found, width) := Symbol(c, n, m);
      found != Error && (if found == kind then width == |LogicText(kind)| else width > |LogicText(kind)|)
  {
  }

  lemma PunctuationFits(kind: Kind, c: char, n: char, m: char)
    requires Colon <= kind <= Hash && Begins(PunctuationText(kind), c, n, m)
    ensures var (found, width) := Symbol(c, n, m);
      found != Error && (if found == kind then width == |PunctuationText(kind)| else width > |PunctuationText(kind)|)
  {
  }

  lemma SymbolFits(kind: Kind, c: char, n: char, m: char)
    requires IsSymbolKind(kind) && Begins(SymbolText(kind), c, n, m)
    ensures var (found, width) := Symbol(c, n, m);
      found != Error && (if found == kind then width == |SymbolText(kind)| else width > |SymbolText(kind)|)
  {
    if kind < PlusEq {
      ArithmeticFits(kind, c, n, m);
    } else if kind < EqEq {
      AssignmentFits(kind, c, n, m);
    } else if kind < Colon {
      LogicFits(kind, c, n, m);
    } else {
      PunctuationFits(kind, c, n, m);
    }
  }

  /** What is read is spelled there. */
  lemma SymbolBegins(c: char, n: char, m: char)
    ensures var (found, width) := Symbol(c, n, m);
      found != Error ==> IsSymbolKind(found) && Begins(SymbolText(found), c, n, m) && width == |SymbolText(found)|
  {
  }

  // ----- In a text -----

  /** Does the text stand there? */
  predicate StartsAt(b: string, i: nat, text: string) {
    i + |text| <= |b| && b[i..i + |text|] == text
  }

  /** Neither a letter, digit or quote nor a zero. */
  predicate IsSymbolStart(c: char) {
    c != '\0' && c != '"' && c != '\'' && c != '_' && !IsAlpha(c) && !IsDigit(c)
  }

  lemma BeginsHere(b: string, i: nat, kind: Kind)
    requires i < |b| && IsSymbolKind(kind)
    ensures StartsAt(b, i, SymbolText(kind)) <==> Begins(SymbolText(kind), b[i], At(b, i + 1), At(b, i + 2))
  {
    var text := SymbolText(kind);
    if StartsAt(b, i, text) {
      assert text[0] == b[i] && (|text| > 1 ==> text[1] == b[i + 1]) && (|text| > 2 ==> text[2] == b[i + 2]);
    }
    SymbolHasNo(kind, '\0');
  }

  /** No symbol is spelled with a blank, a zero, a newline or a letter of any kind. */
  lemma SymbolHasNo(kind: Kind, c: char)
    requires IsSymbolKind(kind) && (c as int <= ' ' as int || IsWordChar(c))
    ensures c !in SymbolText(kind) && 0 < |SymbolText(kind)| <= 3
  {
  }

  /** A symbol of a kind is read exactly where its spelling stands and no longer spelling
      of a symbol does, and it covers just that. */
  lemma SymbolIsLongest(b: string, i: nat, kind: Kind)
    requires i < |b| && IsSymbolStart(b[i]) && IsSymbolKind(kind)
    ensures LexemeAt(b, i).0 == kind <==>
      (StartsAt(b, i, SymbolText(kind)) &&
       forall other | IsSymbolKind(other) && StartsAt(b, i, SymbolText(other)) :: |SymbolText(other)| <= |SymbolText(kind)|)
    ensures LexemeAt(b, i).0 == kind ==> LexemeAt(b, i).1 == i + |SymbolText(kind)|
  {
    var c, n, m := b[i], At(b, i + 1), At(b, i + 2);
    SymbolBegins(c, n, m);
    BeginsHere(b, i, kind);
    var found := Symbol(c, n, m).0;
    if found != Error {
      BeginsHere(b, i, found);
    }
    forall other | IsSymbolKind(other) && StartsAt(b, i, SymbolText(other))
      ensures found != Error && (other == found || |SymbolText(other)| < Symbol(c, n, m).1)
    {
      BeginsHere(b, i, other);
      SymbolFits(other, c, n, m);
    }
  }

  /** The first byte of a UTF-8 sequence begins with the bits 110, 1110 or 11110. */
  lemma WidthByLeadingBits(c: char)
    requires c as int < 256
    ensures ScalarWidth(c) ==
      if c as int / 32 == 6 then 2 else if c as int / 16 == 14 then 3 else if c as int / 8 == 30 then 4 else 1
  {
  }

  /** What starts no symbol is an error, as wide as its sequence of bytes or as the text goes. */
  lemma OtherIsError(b: string, i: nat)
    requires i < |b| && IsSymbolStart(b[i])
    ensures LexemeAt(b, i).0 == Error <==> forall kind | IsSymbolKind(kind) :: !StartsAt(b, i, SymbolText(kind))
    ensures LexemeAt(b, i).0 == Error ==>
      var end := i + ScalarWidth(b[i]); LexemeAt(b, i).1 == if end > |b| then |b| else end
  {
    var c, n, m := b[i], At(b, i + 1), At(b, i + 2);
    SymbolBegins(c, n, m);
    var found := Symbol(c, n, m).0;
    if found != Error {
      BeginsHere(b, i, found);
    }
    forall kind | IsSymbolKind(kind) && StartsAt(b, i, SymbolText(kind)) ensures found != Error {
      BeginsHere(b, i, kind);
      SymbolFits(kind, c, n, m);
    }
  }
}
