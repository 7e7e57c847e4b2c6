/** Writing words as text, a blank or a newline after each, and that the lexer reads them
    back, with a semicolon for each newline that ends a statement. */
module WrittenText {
  import opened Options
  import opened Tokens
  import opened Scanning
  import opened Semicolons
  import opened Tokenization
  import opened Spelling
  import opened Symbols

  // ----- Texts that stand alone -----

  predicate IsSeparator(c: char) {
    c == ' ' || c == '\n'
  }

  /** The text stands there with a blank or a newline behind it. */
  predicate Stands(b: string, i: nat, text: string) {
    i + |text| < |b| && b[i..i + |text|] == text && IsSeparator(b[i + |text|])
  }

  /** Up to the end of what stands there the characters are its own, and then none that a
      word or a number goes on with. */
  lemma SameAt(b: string, i: nat, text: string, j: nat)
    requires Stands(b, i, text) && j <= |text|
    ensures j < |text| ==> At(b, i + j) == At(text, j) == text[j]
    ensures j == |text| ==> IsSeparator(At(b, i + j)) && At(text, j) == '\0'
  {
    if j < |text| {
      assert b[i..i + |text|][j] == b[i + j];
    }
  }

  lemma {:induction false} WordShifts(b: string, i: nat, text: string, j: nat)
    requires Stands(b, i, text) && j <= |text|
    ensures WordEnd(b, i + j) == i + WordEnd(text, j)
    decreases |text| - j
  {
    SameAt(b, i, text, j);
    if j < |text| {
      WordShifts(b, i, text, j + 1);
    }
  }

  lemma {:induction false} DigitsShift(b: string, i: nat, text: string, j: nat)
    requires Stands(b, i, text) && j <= |text|
    ensures DigitsEnd(b, i + j) == i + DigitsEnd(text, j)
    decreases |text| - j
  {
    SameAt(b, i, text, j);
    if j < |text| {
      DigitsShift(b, i, text, j + 1);
    }
  }

  lemma {:induction false} HexShifts(b: string, i: nat, text: string, j: nat)
    requires Stands(b, i, text) && j <= |text|
    ensures HexEnd(b, i + j) == i + HexEnd(text, j)
    decreases |text| - j
  {
    SameAt(b, i, text, j);
    if j < |text| {
      HexShifts(b, i, text, j + 1);
    }
  }

  lemma {:induction false} BaseShifts(b: string, i: nat, text: string, j: nat, base: char)
    requires Stands(b, i, text) && j <= |text|
    ensures BaseEnd(b, i + j, base) == i + BaseEnd(text, j, base)
    ensures BaseCount(b, i + j, base) == BaseCount(text, j, base)
    decreases |text| - j
  {
    SameAt(b, i, text, j);
    if j < |text| {
      BaseShifts(b, i, text, j + 1, base);
    }
  }

  lemma FractionShifts(b: string, i: nat, text: string, j: nat)
    requires Stands(b, i, text) && j <= |text|
    ensures FractionEnd(b, i + j) == i + FractionEnd(text, j)
  {
    SameAt(b, i, text, j);
    if j < |text| {
      SameAt(b, i, text, j + 1);
      DigitsShift(b, i, text, j + 1);
    }
  }

  lemma ExponentShifts(b: string, i: nat, text: string, j: nat)
    requires Stands(b, i, text) && j <= |text|
    ensures ExponentEnd(b, i + j) == i + ExponentEnd(text, j)
  {
    SameAt(b, i, text, j);
    if j < |text| {
      SameAt(b, i, text, j + 1);
      DigitsShift(b, i, text, j + 1);
      if j + 1 < |text| {
        SameAt(b, i, text, j + 2);
        DigitsShift(b, i, text, j + 2);
      }
    }
  }

  lemma BasedShifts(b: string, i: nat, text: string)
    requires Stands(b, i, text) && |text| > 1
    ensures BasedNumber(b, i).0 == BasedNumber(text, 0).0 && BasedNumber(b, i).1 == i + BasedNumber(text, 0).1
  {
    SameAt(b, i, text, 1);
    var base := text[1];
    BaseShifts(b, i, text, 2, base);
    var d := BaseEnd(text, 2, base);
    WordShifts(b, i, text, d);
    SameAt(b, i, text, d);
    SameAt(b, i, text, d - 1);
  }

  /** Where the parts of a decimal number end. */
  lemma DecimalEnds(b: string, i: nat, text: string) returns (whole: nat, fraction: nat, end: nat)
    requires Stands(b, i, text) && text != "" && IsDigit(text[0])
    ensures 0 < whole == DigitsEnd(text, 0) && DigitsEnd(b, i) == i + whole
    ensures whole <= fraction == FractionEnd(text, whole) && FractionEnd(b, i + whole) == i + fraction
    ensures fraction <= end == ExponentEnd(text, fraction) <= |text| && ExponentEnd(b, i + fraction) == i + end
    ensures WordEnd(b, i + end) == i + WordEnd(text, end)
  {
    DigitsShift(b, i, text, 0);
    whole := DigitsEnd(text, 0);
    assert DigitsEnd(text, 0) == DigitsEnd(text, 1);
    FractionShifts(b, i, text, whole);
    fraction := FractionEnd(text, whole);
    ExponentShifts(b, i, text, fraction);
    end := ExponentEnd(text, fraction);
    WordShifts(b, i, text, end);
  }

  /** What a decimal number is, given where its parts end. */
  lemma DecimalIs(b: string, i: nat, whole: nat, fraction: nat, end: nat)
    requires i < |b| && IsDigit(b[i]) && i < end <= |b|
    requires whole == DigitsEnd(b, i) && fraction == FractionEnd(b, whole) && end == ExponentEnd(b, fraction)
    ensures DecimalNumber(b, i) ==
      if b[end - 1] == '_' && !IsAlpha(At(b, end)) then (Error, end)
      else (if end > whole then Float else Integer, WordEnd(b, end))
  {
  }

  lemma DecimalShifts(b: string, i: nat, text: string)
    requires Stands(b, i, text) && text != "" && IsDigit(text[0]) && b[i] == text[0]
    ensures DecimalNumber(b, i).0 == DecimalNumber(text, 0).0 && DecimalNumber(b, i).1 == i + DecimalNumber(text, 0).1
  {
    var whole, fraction, end := DecimalEnds(b, i, text);
    DecimalIs(text, 0, whole, fraction, end);
    DecimalIs(b, i, i + whole, i + fraction, i + end);
    SameAt(b, i, text, end);
    SameAt(b, i, text, end - 1);
  }

  lemma NumberShifts(b: string, i: nat, text: string)
    requires Stands(b, i, text) && text != "" && IsDigit(text[0])
    ensures b[i] == text[0] && NumberAt(b, i).0 == NumberAt(text, 0).0 && NumberAt(b, i).1 == i + NumberAt(text, 0).1
  {
    SameAt(b, i, text, 0);
    SameAt(b, i, text, 1);
    if text[0] == '0' && IsBaseMark(At(text, 1)) {
      BasedShifts(b, i, text);
    } else {
      DecimalShifts(b, i, text);
    }
  }

  lemma UnicodeShifts(b: string, i: nat, text: string, j: nat)
    requires Stands(b, i, text) && j <= |text|
    ensures UnicodeEnd(text, j).Some? ==> UnicodeEnd(b, i + j) == Some(i + UnicodeEnd(text, j).value)
    ensures UnicodeEnd(text, j).None? ==> UnicodeEnd(b, i + j).None?
  {
    SameAt(b, i, text, j);
    if j < |text| {
      HexShifts(b, i, text, j + 1);
      SameAt(b, i, text, HexEnd(text, j + 1));
    }
  }

  /** Where a quoted literal goes on after the character or escape at `i`, and whether that
      is a bad escape; nowhere at its end. */
  function Onward(b: string, i: nat, quote: char): (r: Option<(nat, bool)>)
    ensures r.Some? ==> i < |b| && i < r.value.0
  {
    if At(b, i) == quote || At(b, i) == '\n' || i >= |b| then None
    else if b[i] != '\\' then Some((i + 1, false))
    else if At(b, i + 1) == '\n' then None
    else if At(b, i + 1) == 'u' && UnicodeEnd(b, i + 2).Some? then Some((UnicodeEnd(b, i + 2).value, false))
    else Some((i + 2, !IsEscape(At(b, i + 1))))
  }

  /** A quoted literal as a walk from one character or escape to the next. */
  function QuotedBy(b: string, i: nat, quote: char, badEscape: bool, empty: bool): Quoted
    decreases |b| - i
  {
    var next := Onward(b, i, quote);
    if next.Some? then QuotedBy(b, next.value.0, quote, badEscape || next.value.1, false)
    else if i < |b| && b[i] == quote then Quoted(i + 1, true, badEscape, empty)
    else Quoted(i, false, badEscape, empty)
  }

  lemma {:induction false} ScansByWalking(b: string, i: nat, quote: char, badEscape: bool, empty: bool)
    ensures ScanQuoted(b, i, quote, badEscape, empty) == QuotedBy(b, i, quote, badEscape, empty)
    decreases |b| - i
  {
    var next := Onward(b, i, quote);
    if next.Some? {
      ScansByWalking(b, next.value.0, quote, badEscape || next.value.1, false);
    }
  }

  lemma OnwardShifts(b: string, i: nat, text: string, j: nat, quote: char)
    requires Stands(b, i, text) && j < |text|
    requires Onward(text, j, quote).Some? ==> Onward(text, j, quote).value.0 <= |text|
    ensures var next := Onward(text, j, quote);
      Onward(b, i + j, quote) == if next.Some? then Some((i + next.value.0, next.value.1)) else None
  {
    SameAt(b, i, text, j);
    SameAt(b, i, text, j + 1);
    if j + 2 <= |text| {
      UnicodeShifts(b, i, text, j + 2);
    }
  }

  /** A literal that is closed goes no further than the text. */
  lemma {:induction false} ClosedInside(b: string, i: nat, quote: char, badEscape: bool, empty: bool)
    requires QuotedBy(b, i, quote, badEscape, empty).closed
    ensures i < |b| && (Onward(b, i, quote).Some? ==> Onward(b, i, quote).value.0 < |b|)
    decreases |b| - i
  {
    var next := Onward(b, i, quote);
    if next.Some? {
      ClosedInside(b, next.value.0, quote, badEscape || next.value.1, false);
    }
  }

  lemma {:induction false} WalkShifts(b: string, i: nat, text: string, j: nat, quote: char, badEscape: bool, empty: bool)
    requires Stands(b, i, text) && j <= |text| && QuotedBy(text, j, quote, badEscape, empty).closed
    ensures var q := QuotedBy(text, j, quote, badEscape, empty);
      QuotedBy(b, i + j, quote, badEscape, empty) == q.(end := i + q.end)
    decreases |text| - j
  {
    ClosedInside(text, j, quote, badEscape, empty);
    OnwardShifts(b, i, text, j, quote);
    SameAt(b, i, text, j);
    var next := Onward(text, j, quote);
    if next.Some? {
      WalkShifts(b, i, text, next.value.0, quote, badEscape || next.value.1, false);
    }
  }

  /** A literal that is closed in the text is closed at the same place elsewhere. */
  lemma QuotedShifts(b: string, i: nat, text: string, j: nat, quote: char, badEscape: bool, empty: bool)
    requires Stands(b, i, text) && j <= |text| && ScanQuoted(text, j, quote, badEscape, empty).closed
    ensures var q := ScanQuoted(text, j, quote, badEscape, empty);
      ScanQuoted(b, i + j, quote, badEscape, empty) == q.(end := i + q.end)
  {
    ScansByWalking(text, j, quote, badEscape, empty);
    ScansByWalking(b, i + j, quote, badEscape, empty);
    WalkShifts(b, i, text, j, quote, badEscape, empty);
  }

  // ----- Words that can be written -----

  /** A letter or underscore and then letters, digits and underscores. */
  predicate IsName(text: string) {
    text != "" && !IsDigit(text[0]) && forall c <- text :: IsWordChar(c)
  }

  predicate IsIdentText(text: string) {
    IsName(text) && text != "_" && LookupKeyword(text) == Ident
  }

  /** The spelling is one that a word of the kind can have. */
  predicate IsSpelling(kind: Kind, text: string) {
    if IsKeywordKind(kind) then text == KeywordText(kind)
    else if IsSymbolKind(kind) then text == SymbolText(kind)
    else if kind == Ident then IsIdentText(text)
    else if kind == Underscore then text == "_"
    else text != "" && (kind == Integer || kind == Float || kind == String || kind == Char) && LexemeAt(text, 0) == (kind, |text|)
  }

  predicate IsWritten(w: Word) {
    w.reserved == 0 && !IsReserved(w.kind) && IsSpelling(w.kind, w.spelling)
  }

  lemma {:induction false} NameEnds(text: string, j: nat)
    requires j <= |text| && forall k | j <= k < |text| :: IsWordChar(text[k])
    ensures WordEnd(text, j) == |text|
    decreases |text| - j
  {
    if j < |text| {
      NameEnds(text, j + 1);
    }
  }

  lemma NameIsRead(b: string, i: nat, text: string)
    requires Stands(b, i, text) && IsName(text)
    ensures LexemeAt(b, i) == (WordKind(text), i + |text|)
  {
    SameAt(b, i, text, 0);
    forall k | 0 <= k < |text| ensures IsWordChar(text[k]) {
      assert text[k] in text;
    }
    NameEnds(text, 0);
    WordShifts(b, i, text, 0);
    assert b[i] == text[0] && b[i..WordEnd(b, i)] == text;
  }

  /** No symbol goes beyond what stands there. */
  lemma SymbolsAreNoLonger(b: string, i: nat, text: string, other: Kind)
    requires Stands(b, i, text) && IsSymbolKind(other) && StartsAt(b, i, SymbolText(other))
    ensures |SymbolText(other)| <= |text|
  {
    var longer := SymbolText(other);
    if |longer| > |text| {
      assert b[i..i + |longer|][|text|] == b[i + |text|];
      assert longer[|text|] in longer;
      SymbolHasNo(other, b[i + |text|]);
    }
  }

  lemma SymbolIsRead(b: string, i: nat, kind: Kind)
    requires IsSymbolKind(kind) && Stands(b, i, SymbolText(kind))
    ensures LexemeAt(b, i) == (kind, i + |SymbolText(kind)|)
  {
    SymbolStart(kind);
    SameAt(b, i, SymbolText(kind), 0);
    forall other | IsSymbolKind(other) && StartsAt(b, i, SymbolText(other))
      ensures |SymbolText(other)| <= |SymbolText(kind)|
    {
      SymbolsAreNoLonger(b, i, SymbolText(kind), other);
    }
    SymbolIsLongest(b, i, kind);
  }

  lemma SymbolStart(kind: Kind)
    requires IsSymbolKind(kind)
    ensures SymbolText(kind) != "" && IsSymbolStart(SymbolText(kind)[0]) && SymbolText(kind)[0] > ' '
  {
  }

  lemma LiteralIsRead(b: string, i: nat, text: string)
    requires Stands(b, i, text) && text != ""
    requires LexemeAt(text, 0).0 in {Integer, Float, String, Char}
    ensures LexemeAt(b, i).0 == LexemeAt(text, 0).0 && LexemeAt(b, i).1 == i + LexemeAt(text, 0).1
  {
    SameAt(b, i, text, 0);
    if IsDigit(text[0]) {
      NumberShifts(b, i, text);
    } else if text[0] == '"' || text[0] == '\'' {
      QuotedShifts(b, i, text, 1, text[0], false, true);
    }
  }

  lemma NameToE(kind: Kind)
    requires GroupOf(kind) == ToE
    ensures IsName(SpelledToE(kind)) && SpelledToE(kind) != "_"
  {
  }

  lemma NameToL(kind: Kind)
    requires GroupOf(kind) == ToL
    ensures IsName(SpelledToL(kind)) && SpelledToL(kind) != "_"
  {
  }

  lemma NameToS(kind: Kind)
    requires GroupOf(kind) == ToS
    ensures IsName(SpelledToS(kind)) && SpelledToS(kind) != "_"
  {
  }

  lemma NameToW(kind: Kind)
    requires IsKeywordKind(kind) && GroupOf(kind) == ToW
    ensures IsName(SpelledToW(kind)) && SpelledToW(kind) != "_"
  {
  }

  /** A keyword is a name. */
  lemma KeywordIsName(kind: Kind)
    requires IsKeywordKind(kind)
    ensures IsName(KeywordText(kind)) && WordKind(KeywordText(kind)) == kind
  {
    KeywordsAreSpelled(KeywordText(kind), kind);
    if GroupOf(kind) == ToE {
      NameToE(kind);
    } else if GroupOf(kind) == ToL {
      NameToL(kind);
    } else if GroupOf(kind) == ToS {
      NameToS(kind);
    } else {
      NameToW(kind);
    }
  }

  /** A name is no keyword exactly when it is spelled like none. */
  lemma IdentIsNoKeyword(text: string)
    ensures IsIdentText(text) <==> (IsName(text) && text != "_" && forall k | IsKeywordKind(k) :: text != KeywordText(k))
  {
    var kind := LookupKeyword(text);
    if kind != Ident {
      KeywordsAreSpelled(text, kind);
    } else {
      forall k | IsKeywordKind(k) ensures text != KeywordText(k) {
        KeywordsAreSpelled(text, k);
      }
    }
  }

  lemma KeywordIsRead(b: string, i: nat, kind: Kind)
    requires IsKeywordKind(kind) && Stands(b, i, KeywordText(kind))
    ensures LexemeAt(b, i) == (kind, i + |KeywordText(kind)|)
  {
    KeywordIsName(kind);
    NameIsRead(b, i, KeywordText(kind));
  }

  lemma IdentIsRead(b: string, i: nat, text: string)
    requires IsIdentText(text) && Stands(b, i, text)
    ensures LexemeAt(b, i) == (Ident, i + |text|)
  {
    NameIsRead(b, i, text);
  }

  /** A word that can be written is read as what it is. */
  lemma WordIsRead(b: string, i: nat, w: Word)
    requires IsWritten(w) && Stands(b, i, w.spelling)
    ensures LexemeAt(b, i) == (w.kind, i + |w.spelling|)
  {
    if IsKeywordKind(w.kind) {
      KeywordIsRead(b, i, w.kind);
    } else if IsSymbolKind(w.kind) {
      SymbolIsRead(b, i, w.kind);
    } else if w.kind == Ident {
      IdentIsRead(b, i, w.spelling);
    } else if w.kind == Underscore {
      NameIsRead(b, i, w.spelling);
    } else {
      LiteralIsRead(b, i, w.spelling);
    }
  }

  /** Nor does it begin as a blank, a newline or a comment would. */
  lemma WordIsPiece(b: string, i: nat, w: Word)
    requires IsWritten(w) && Stands(b, i, w.spelling)
    ensures i < |b| && !IsBlank(b[i]) && w.spelling != "" && PieceAt(b, i) == Lexeme(w.kind, i, i + |w.spelling|)
  {
    WordIsRead(b, i, w);
    SameAt(b, i, w.spelling, 0);
    if IsSymbolKind(w.kind) {
      SymbolIsNoComment(w.kind);
      SameAt(b, i, w.spelling, 1);
      SymbolStart(w.kind);
    } else if IsKeywordKind(w.kind) {
      KeywordIsName(w.kind);
    }
  }

  lemma SymbolIsNoComment(kind: Kind)
    requires IsSymbolKind(kind)
    ensures var text := SymbolText(kind); |text| > 1 && text[0] == '/' ==> text[1] == '='
  {
  }

  // ----- Whole texts -----

  /** Words to write, and for each whether a newline or a blank comes after it. */
  datatype Layout = Done | Put(word: Word, newline: bool, rest: Layout)

  predicate CanBeWritten(l: Layout) {
    l.Put? ==> IsWritten(l.word) && CanBeWritten(l.rest)
  }

  function Separator(newline: bool): string {
    if newline then "\n" else " "
  }

  function TextOf(l: Layout): string {
    match l
    case Done => ""
    case Put(w, newline, rest) => w.spelling + Separator(newline) + TextOf(rest)
  }

  function FirstOf(l: Layout): Kind {
    if l.Put? then l.word.kind else Eof
  }

  predicate EndsLine(l: Layout)
    requires l.Put?
  {
    l.newline && EndsStatement(l.word.kind) && !ContinuesLine(FirstOf(l.rest))
  }

  /** What a parser gets to see. */
  function WordsOf(l: Layout): Stream {
    match l
    case Done => More(Word(Eof, "", 0), End)
    case Put(w, _, rest) =>
      More(w, if EndsLine(l) then More(Word(Semicolon, "\n", 0), WordsOf(rest)) else WordsOf(rest))
  }

  /** The semicolon for the newline at `i` behind the first word, if that ends its line. */
  function LineEndTokens(l: Layout, i: nat): seq<Lexed>
    requires l.Put?
  {
    if EndsLine(l) then [Lexed(Semicolon, i, i + 1)] else []
  }

  /** The tokens of the first word, which stands at `i`, and of what is behind it. */
  function FirstTokens(l: Layout, i: nat): seq<Lexed>
    requires l.Put?
  {
    var end := i + |l.word.spelling|;
    [Lexed(l.word.kind, i, end)] + LineEndTokens(l, end)
  }

  function TokensFrom(l: Layout, i: nat): seq<Lexed> {
    if l.Done? then [] else FirstTokens(l, i) + TokensFrom(l.rest, i + |l.word.spelling| + 1)
  }

  /** Does the layout make up the text from there on? */
  predicate LiesAt(b: string, i: nat, l: Layout)
    decreases l
  {
    if l.Done? then i == |b|
    else
      var end := i + |l.word.spelling|;
      && Stands(b, i, l.word.spelling) && b[end] == (if l.newline then '\n' else ' ')
      && LiesAt(b, end + 1, l.rest)
  }

  lemma {:induction false} TextLies(pre: string, l: Layout)
    ensures LiesAt(pre + TextOf(l), |pre|, l)
    decreases l
  {
    if l.Put? {
      var b, end := pre + TextOf(l), |pre| + |l.word.spelling|;
      var next := pre + l.word.spelling + Separator(l.newline);
      assert b == next + TextOf(l.rest);
      TextLies(next, l.rest);
      assert b[|pre|..end] == l.word.spelling;
      assert b[end] == next[end] == Separator(l.newline)[0];
    }
  }

  // ----- The pieces of a layout -----

  /** What follows the first word, which ends at `end`. */
  function SeparatorPieces(newline: bool, end: nat, rest: Pieces): Pieces {
    if newline then Cons(Newline(end, end + 1), rest) else rest
  }

  /** The pieces, when the first word stands at `i`. */
  function PiecesOf(l: Layout, i: nat): Pieces {
    match l
    case Done => Nil
    case Put(w, newline, rest) =>
      var end := i + |w.spelling|;
      Cons(Lexeme(w.kind, i, end), SeparatorPieces(newline, end, PiecesOf(rest, end + 1)))
  }

  lemma PieceIsFirst(b: string, i: nat, p: Piece)
    requires i < |b| && !IsBlank(b[i]) && PieceAt(b, i) == p
    ensures PiecesFrom(b, i) == Cons(p, PiecesFrom(b, p.end)) && StopsAt(b, i) == StopsAt(b, p.end)
  {
  }

  lemma SeparatorIsPiece(b: string, end: nat, newline: bool)
    requires end < |b| && b[end] == if newline then '\n' else ' '
    ensures PiecesFrom(b, end) == SeparatorPieces(newline, end, PiecesFrom(b, end + 1)) && StopsAt(b, end) == StopsAt(b, end + 1)
  {
    if newline {
      PieceIsFirst(b, end, Newline(end, end + 1));
    }
  }

  /** Wherever the word stands it is the next piece. */
  ghost predicate IsReadable(w: Word) {
    forall b: string, i: nat :: Stands(b, i, w.spelling) ==> IsNextPiece(b, i, w)
  }

  predicate IsNextPiece(b: string, i: nat, w: Word)
    requires i + |w.spelling| <= |b|
  {
    var end := i + |w.spelling|;
    StopsAt(b, i) == StopsAt(b, end) && PiecesFrom(b, i) == Cons(Lexeme(w.kind, i, end), PiecesFrom(b, end))
  }

  lemma WordIsNextPiece(b: string, i: nat, w: Word)
    requires IsWritten(w) && Stands(b, i, w.spelling)
    ensures IsNextPiece(b, i, w)
  {
    WordIsPiece(b, i, w);
    PieceIsFirst(b, i, Lexeme(w.kind, i, i + |w.spelling|));
  }

  lemma WrittenIsReadable(w: Word)
    requires IsWritten(w)
    ensures IsReadable(w)
  {
    forall b: string, i: nat | Stands(b, i, w.spelling) ensures IsNextPiece(b, i, w) {
      WordIsNextPiece(b, i, w);
    }
  }

  ghost predicate AreReadable(l: Layout) {
    l.Put? ==> IsReadable(l.word) && AreReadable(l.rest)
  }

  lemma {:induction false} LayoutIsReadable(l: Layout)
    requires CanBeWritten(l)
    ensures AreReadable(l)
    decreases l
  {
    if l.Put? {
      WrittenIsReadable(l.word);
      LayoutIsReadable(l.rest);
    }
  }

  lemma FirstIsPiece(b: string, i: nat, w: Word, newline: bool)
    requires IsReadable(w) && Stands(b, i, w.spelling) && b[i + |w.spelling|] == if newline then '\n' else ' '
    ensures var end := i + |w.spelling|;
      && StopsAt(b, i) == StopsAt(b, end + 1)
      && PiecesFrom(b, i) == Cons(Lexeme(w.kind, i, end), SeparatorPieces(newline, end, PiecesFrom(b, end + 1)))
  {
    assert IsNextPiece(b, i, w);
    SeparatorIsPiece(b, i + |w.spelling|, newline);
  }

  lemma {:induction false} PiecesAre(b: string, i: nat, l: Layout)
    requires AreReadable(l) && LiesAt(b, i, l)
    ensures PiecesFrom(b, i) == PiecesOf(l, i) && StopsAt(b, i) == |b|
    decreases l
  {
    if l.Put? {
      FirstIsPiece(b, i, l.word, l.newline);
      PiecesAre(b, i + |l.word.spelling| + 1, l.rest);
    }
  }

  // ----- The tokens of a layout -----

  /** No word is one that the lexer or the parser passes over. */
  predicate IsSignificant(l: Layout) {
    l.Put? ==>
      l.word.kind != Error && !IsInsignificant(l.word.kind) && l.word.reserved == 0 && IsSignificant(l.rest)
  }

  lemma WordIsSignificant(w: Word)
    requires IsWritten(w)
    ensures w.kind != Error && !IsInsignificant(w.kind) && w.reserved == 0
  {
  }

  lemma {:induction false} WrittenIsSignificant(l: Layout)
    requires CanBeWritten(l)
    ensures IsSignificant(l)
    decreases l
  {
    if l.Put? {
      WordIsSignificant(l.word);
      WrittenIsSignificant(l.rest);
    }
  }

  lemma NextIsFirst(l: Layout, i: nat)
    ensures NextKind(PiecesOf(l, i)) == FirstOf(l)
  {
  }

  /** What comes after the first word gives a semicolon if its line is over. */
  lemma SeparatorIsLexed(l: Layout, end: nat, out: seq<Lexed>)
    requires l.Put? && LastKind(out) == l.word.kind
    ensures var rest := PiecesOf(l.rest, end + 1);
      Insert(out, SeparatorPieces(l.newline, end, rest)) == Insert(out + LineEndTokens(l, end), rest)
  {
    NextIsFirst(l.rest, end + 1);
    assert out + [] == out;
  }

  lemma FirstIsLexed(l: Layout, i: nat, out: seq<Lexed>)
    requires l.Put? && IsSignificant(l)
    ensures Insert(out, PiecesOf(l, i)) == Insert(out + FirstTokens(l, i), PiecesOf(l.rest, i + |l.word.spelling| + 1))
  {
    var end := i + |l.word.spelling|;
    var token := Lexed(l.word.kind, i, end);
    LastKindOfOne(out, token);
    SeparatorIsLexed(l, end, out + [token]);
    Regroup(out, [token], LineEndTokens(l, end));
  }

  lemma {:induction false} LayoutIsLexed(l: Layout, i: nat, out: seq<Lexed>)
    requires IsSignificant(l)
    ensures Insert(out, PiecesOf(l, i)) == out + TokensFrom(l, i)
    decreases l
  {
    if l.Put? {
      var next := i + |l.word.spelling| + 1;
      FirstIsLexed(l, i, out);
      LayoutIsLexed(l.rest, next, out + FirstTokens(l, i));
      Regroup(out, FirstTokens(l, i), TokensFrom(l.rest, next));
    } else {
      assert out + [] == out;
    }
  }

  // ----- What the parser sees -----

  /** The words of tokens none of which is passed over. */
  function StreamOf(b: string, ts: seq<Lexed>): Stream {
    if ts == [] then End else More(Word(ts[0].kind, Text(b, ts[0]), 0), StreamOf(b, ts[1..]))
  }

  lemma {:induction false} WordsAre(b: string, ts: seq<Lexed>, i: nat)
    requires i <= |ts| && forall k | 0 <= k < |ts| :: !IsInsignificant(ts[k].kind)
    ensures Words(Spelled(b, ts), i) == StreamOf(b, ts[i..]) && ReservedAhead(Spelled(b, ts), i) == 0
    decreases |ts| - i
  {
    if i < |ts| {
      WordsAre(b, ts, i + 1);
      assert ts[i..][1..] == ts[i + 1..];
    }
  }

  lemma StreamOfOne(b: string, t: Lexed, rest: seq<Lexed>)
    ensures StreamOf(b, [t] + rest) == More(Word(t.kind, Text(b, t), 0), StreamOf(b, rest))
  {
    assert ([t] + rest)[1..] == rest;
  }

  lemma TextStands(b: string, i: nat, kind: Kind, text: string)
    requires Stands(b, i, text)
    ensures Text(b, Lexed(kind, i, i + |text|)) == text
  {
  }

  lemma FirstWords(b: string, i: nat, l: Layout, rest: seq<Lexed>)
    requires l.Put? && l.word.reserved == 0 && i + |l.word.spelling| < |b|
    requires Text(b, Lexed(l.word.kind, i, i + |l.word.spelling|)) == l.word.spelling
    requires l.newline ==> b[i + |l.word.spelling|] == '\n'
    ensures StreamOf(b, FirstTokens(l, i) + rest) ==
      More(l.word, if EndsLine(l) then More(Word(Semicolon, "\n", 0), StreamOf(b, rest)) else StreamOf(b, rest))
  {
    var end := i + |l.word.spelling|;
    var token := Lexed(l.word.kind, i, end);
    Regroup([token], LineEndTokens(l, end), rest);
    StreamOfOne(b, token, LineEndTokens(l, end) + rest);
    if EndsLine(l) {
      var semicolon := Lexed(Semicolon, end, end + 1);
      assert Text(b, semicolon) == "\n";
      StreamOfOne(b, semicolon, rest);
    } else {
      assert [] + rest == rest;
    }
  }

  lemma {:induction false} StreamOfTokens(b: string, i: nat, l: Layout)
    requires IsSignificant(l) && LiesAt(b, i, l)
    ensures StreamOf(b, TokensFrom(l, i) + [EndMark(|b|)]) == WordsOf(l)
    decreases l
  {
    if l.Put? {
      var next := i + |l.word.spelling| + 1;
      StreamOfTokens(b, next, l.rest);
      TextStands(b, i, l.word.kind, l.word.spelling);
      FirstWords(b, i, l, TokensFrom(l.rest, next) + [EndMark(|b|)]);
      Regroup(FirstTokens(l, i), TokensFrom(l.rest, next), [EndMark(|b|)]);
    } else {
      assert [] + [EndMark(|b|)] == [EndMark(|b|)];
      assert Text(b, EndMark(|b|)) == "";
    }
  }

  lemma {:induction false} TokensAreSignificant(l: Layout, i: nat)
    requires IsSignificant(l)
    ensures forall t <- TokensFrom(l, i) :: !IsInsignificant(t.kind)
    decreases l
  {
    if l.Put? {
      TokensAreSignificant(l.rest, i + |l.word.spelling| + 1);
    }
  }

  lemma WholeTextLies(l: Layout)
    ensures LiesAt(TextOf(l), 0, l)
  {
    TextLies("", l);
    assert "" + TextOf(l) == TextOf(l);
  }

  lemma TokensAre(l: Layout)
    requires CanBeWritten(l)
    ensures LexText(TextOf(l)) == TokensFrom(l, 0) + [EndMark(|TextOf(l)|)]
  {
    WholeTextLies(l);
    LayoutIsReadable(l);
    PiecesAre(TextOf(l), 0, l);
    WrittenIsSignificant(l);
    LayoutIsLexed(l, 0, []);
    assert [] + TokensFrom(l, 0) == TokensFrom(l, 0);
  }

  /** What the parser sees of a written text is what was written, and a semicolon for each
      newline between a word that ends a statement and one that does not carry it on. */
  lemma WrittenReadsBack(l: Layout)
    requires CanBeWritten(l)
    ensures var b := TextOf(l); Words(Spelled(b, LexText(b)), 0) == WordsOf(l) && ReservedAhead(Spelled(b, LexText(b)), 0) == 0
  {
    TokensAre(l);
    WrittenIsSignificant(l);
    WholeTextLies(l);
    SignificantReadsBack(TextOf(l), l);
  }

  lemma SignificantReadsBack(b: string, l: Layout)
    requires IsSignificant(l) && LiesAt(b, 0, l)
    ensures var words := Spelled(b, TokensFrom(l, 0) + [EndMark(|b|)]);
      Words(words, 0) == WordsOf(l) && ReservedAhead(words, 0) == 0
  {
    var ts := TokensFrom(l, 0) + [EndMark(|b|)];
    TokensAreSignificant(l, 0);
    StreamOfTokens(b, 0, l);
    WordsAre(b, ts, 0);
    assert ts[0..] == ts;
  }
}
