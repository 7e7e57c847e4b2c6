/** The words that the printers use are spelled as the lexer reads them. */
module PrintedWords {
  import opened Options
  import opened Tokens
  import opened Scanning
  import opened WrittenText
  import opened Symbols
  import Y = TypeSyntax
  import P = PatternSyntax
  import E = ExprSyntax
  import I = ItemRoundTrip
  import T = TypeRoundTrip
  import A = Ast

  predicate IsSymbol(w: Word) {
    IsSymbolKind(w.kind) && w == Word(w.kind, SymbolText(w.kind), 0)
  }

  predicate IsKeyword(w: Word) {
    IsKeywordKind(w.kind) && !IsReserved(w.kind) && w == Word(w.kind, KeywordText(w.kind), 0)
  }

  lemma SymbolIsWritten(w: Word)
    requires IsSymbol(w)
    ensures IsWritten(w)
  {
  }

  lemma KeywordIsWritten(w: Word)
    requires IsKeyword(w)
    ensures IsWritten(w)
  {
  }

  /** Every operator is written as the symbol it is parsed from. */
  lemma BinaryIsSymbol(op: A.BinaryOp)
    ensures IsSymbol(E.BinaryWord(op))
  {
  }

  lemma AssignIsSymbol(compound: Option<A.BinaryOp>)
    ensures IsSymbol(E.AssignWord(compound))
  {
  }

  lemma UnaryIsSymbol(op: A.UnaryOp)
    ensures IsSymbol(E.UnaryWord(op))
  {
  }

  lemma PrimitiveIsKeyword(p: A.PrimitiveKind)
    ensures IsKeyword(Y.PrimitiveWord(p))
  {
  }

  lemma BracketsAreSymbols()
    ensures IsSymbol(Y.LPAREN) && IsSymbol(Y.RPAREN) && IsSymbol(Y.LBRACE) && IsSymbol(Y.RBRACE)
    ensures IsSymbol(E.LBRACKET) && IsSymbol(E.RBRACKET) && IsSymbol(Y.LESS) && IsSymbol(Y.GREATER) && IsSymbol(Y.PAIR)
  {
  }

  lemma PunctuationIsSymbols()
    ensures IsSymbol(Y.COLONS) && IsSymbol(Y.COMMA) && IsSymbol(Y.COLON) && IsSymbol(Y.AMP) && IsSymbol(Y.BANG)
    ensures IsSymbol(P.PIPE) && IsSymbol(E.DOT) && IsSymbol(E.QUESTION) && IsSymbol(E.SEMICOLON)
    ensures IsSymbol(E.COLON_EQ) && IsSymbol(E.EQ) && IsSymbol(E.FAT_ARROW) && IsSymbol(I.ARROW)
    ensures IsSymbol(E.DOT_DOT) && IsSymbol(E.DOT_DOT_EQ) && IsSymbol(E.DOT_DOT_LESS)
  {
  }

  lemma FormsAreKeywords()
    ensures IsKeyword(E.IF) && IsKeyword(E.ELSE) && IsKeyword(E.MATCH) && IsKeyword(E.LOOP) && IsKeyword(E.WHILE)
    ensures IsKeyword(E.BREAK) && IsKeyword(E.CONTINUE) && IsKeyword(E.RET) && IsKeyword(E.AS)
  {
  }

  lemma ItemsAreKeywords()
    ensures IsKeyword(I.PUB) && IsKeyword(I.FN) && IsKeyword(I.STRUCT) && IsKeyword(I.ENUM) && IsKeyword(I.IMPL)
  {
  }

  lemma OthersAreKeywords()
    ensures IsKeyword(I.MOD) && IsKeyword(I.STATIC) && IsKeyword(I.CONST) && IsKeyword(I.USE)
    ensures IsKeyword(Y.MUT) && IsKeyword(Y.STR)
  {
  }

  /** A name can be written exactly if it is a word that is no keyword. */
  lemma NamesAreWritten(name: string)
    ensures IsWritten(T.Name(name)) <==> IsName(name) && name != "_" && forall k | IsKeywordKind(k) :: name != KeywordText(k)
  {
    IdentIsNoKeyword(name);
  }
}
