/** Texts that are numbers and quoted literals. */
module Literals {
  import opened Options
  import opened Tokens
  import opened Scanning
  import opened Spelling

  predicate AreDigits(text: string) {
    forall c <- text :: IsDigit(c)
  }

  /** The digits of the base that the mark stands for. */
  function DigitsOf(mark: char): string {
    if mark == 'b' || mark == 'B' then "01"
    else if mark == 'o' || mark == 'O' then "01234567"
    else "0123456789abcdefABCDEF"
  }

  predicate AreBaseDigits(base: char, text: string) {
    forall c <- text :: c in DigitsOf(base)
  }

  lemma BaseDigitsAre(base: char, c: char)
    ensures c in DigitsOf(base) <==> IsBaseDigit(base, c) && c != '_'
  {
  }

  lemma {:induction false} DigitsRun(b: string, i: nat, j: nat)
    requires i <= j <= |b| && (forall k | i <= k < j :: IsDigit(b[k])) && !IsDigit(At(b, j)) && At(b, j) != '_'
    ensures DigitsEnd(b, i) == j
    decreases j - i
  {
    if i < j {
      DigitsRun(b, i + 1, j);
    }
  }

  lemma {:induction false} BaseRuns(b: string, i: nat, base: char)
    requires i <= |b| && forall k | i <= k < |b| :: IsBaseDigit(base, b[k]) && b[k] != '_'
    ensures BaseEnd(b, i, base) == |b| && BaseCount(b, i, base) == |b| - i
    decreases |b| - i
  {
    if i < |b| {
      BaseRuns(b, i + 1, base);
    }
  }

  /** Digits alone are an integer. */
  lemma DigitsAreInteger(text: string)
    requires text != "" && AreDigits(text)
    ensures LexemeAt(text, 0) == (Integer, |text|)
  {
    forall k | 0 <= k < |text| ensures IsDigit(text[k]) {
      assert text[k] in text;
    }
    DigitsRun(text, 0, |text|);
    assert FractionEnd(text, |text|) == |text| == ExponentEnd(text, |text|);
    assert WordEnd(text, |text|) == |text|;
  }

  /** Digits, a point and digits are a floating-point number. */
  lemma PointMakesFloat(whole: string, fraction: string)
    requires whole != "" && AreDigits(whole) && AreDigits(fraction)
    ensures var text := whole + "." + fraction; LexemeAt(text, 0) == (Float, |text|)
  {
    var text := whole + "." + fraction;
    forall k | 0 <= k < |text| ensures if k == |whole| then text[k] == '.' else IsDigit(text[k]) {
      if k < |whole| {
        assert text[k] == whole[k] && whole[k] in whole;
      } else if k > |whole| {
        assert text[k] == fraction[k - |whole| - 1] && fraction[k - |whole| - 1] in fraction;
      }
    }
    DigitsRun(text, 0, |whole|);
    DigitsRun(text, |whole| + 1, |text|);
    assert FractionEnd(text, |whole|) == |text| == ExponentEnd(text, |text|);
    assert WordEnd(text, |text|) == |text|;
  }

  lemma DigitsAt(b: string, i: nat, digits: string)
    requires i + |digits| <= |b| && b[i..i + |digits|] == digits && AreDigits(digits)
    ensures forall k | i <= k < i + |digits| :: IsDigit(b[k])
  {
    forall k | i <= k < i + |digits| ensures IsDigit(b[k]) {
      assert b[k] == b[i..i + |digits|][k - i];
      assert digits[k - i] in digits;
    }
  }

  /** An exponent, with or without a sign, makes a floating-point number. */
  lemma ExponentMakesFloat(whole: string, e: char, sign: string, digits: string)
    requires whole != "" && digits != "" && AreDigits(whole) && AreDigits(digits)
    requires (e == 'e' || e == 'E') && (sign == "" || sign == "+" || sign == "-")
    ensures var text := whole + [e] + sign + digits; LexemeAt(text, 0) == (Float, |text|)
  {
    var text := whole + [e] + sign + digits;
    var mark, start := |whole|, |whole| + 1 + |sign|;
    assert text[..mark] == whole && text[start..] == digits;
    assert text[mark] == e && (sign != "" ==> text[mark + 1] == sign[0]);
    DigitsAt(text, 0, whole);
    DigitsAt(text, start, digits);
    DigitsRun(text, 0, mark);
    ExponentRuns(text, mark, start);
    assert WordEnd(text, |text|) == |text|;
  }

  lemma ExponentRuns(b: string, mark: nat, start: nat)
    requires mark < start < |b| && (b[mark] == 'e' || b[mark] == 'E') && forall k | start <= k < |b| :: IsDigit(b[k])
    requires start == mark + 1 || (start == mark + 2 && (b[mark + 1] == '+' || b[mark + 1] == '-'))
    ensures FractionEnd(b, mark) == mark && ExponentEnd(b, mark) == |b|
  {
    DigitsRun(b, start, |b|);
  }

  /** Two dots behind an integer are no fraction: `1..2` begins with the integer `1`. */
  lemma RangeIsNoFraction(digits: string, rest: string)
    requires digits != "" && AreDigits(digits)
    ensures LexemeAt(digits + ".." + rest, 0) == (Integer, |digits|)
  {
    var text := digits + ".." + rest;
    assert text[..|digits|] == digits && text[|digits|] == '.' && text[|digits| + 1] == '.';
    DigitsAt(text, 0, digits);
    DigitsRun(text, 0, |digits|);
  }

  lemma {:induction false} LettersRun(b: string, i: nat, j: nat)
    requires i <= j <= |b| && (forall k | i <= k < j :: IsAlpha(b[k])) && !IsWordChar(At(b, j))
    ensures WordEnd(b, i) == j
    decreases j - i
  {
    if i < j {
      LettersRun(b, i + 1, j);
    }
  }

  /** Letters behind the digits belong to the number, unless they begin like an exponent or,
      behind a zero, like the mark of a base. */
  lemma SuffixBelongs(digits: string, suffix: string)
    requires digits != "" && AreDigits(digits) && suffix != "" && forall c <- suffix :: IsAlpha(c)
    requires suffix[0] != 'e' && suffix[0] != 'E' && (digits[0] == '0' ==> |digits| > 1 || !IsBaseMark(suffix[0]))
    ensures LexemeAt(digits + suffix, 0) == (Integer, |digits + suffix|)
  {
    var text, n := digits + suffix, |digits|;
    assert text[..n] == digits;
    DigitsAt(text, 0, digits);
    forall k | n <= k < |text| ensures IsAlpha(text[k]) {
      assert text[k] == suffix[k - n] && suffix[k - n] in suffix;
    }
    DigitsRun(text, 0, n);
    LettersRun(text, n, |text|);
  }

  /** A mark for the base and digits of that base are an integer; without digits they are
      an error. */
  lemma BaseMakesInteger(base: char, digits: string)
    requires IsBaseMark(base) && AreBaseDigits(base, digits)
    ensures var text := ['0', base] + digits;
      LexemeAt(text, 0) == (if digits == "" then Error else Integer, |text|)
  {
    var text := ['0', base] + digits;
    forall k | 2 <= k < |text| ensures IsBaseDigit(base, text[k]) && text[k] != '_' {
      assert text[k] == digits[k - 2] && digits[k - 2] in digits;
      BaseDigitsAre(base, digits[k - 2]);
    }
    BaseRuns(text, 2, base);
    assert WordEnd(text, |text|) == |text|;
  }

  lemma {:induction false} BaseStops(b: string, i: nat, j: nat, base: char)
    requires i <= j < |b| && (forall k | i <= k < j :: IsBaseDigit(base, b[k]) && b[k] != '_') && !IsBaseDigit(base, b[j])
    ensures BaseEnd(b, i, base) == j && BaseCount(b, i, base) == j - i
    decreases j - i
  {
    if i < j {
      BaseStops(b, i + 1, j, base);
    }
  }

  /** A digit that the base does not have spoils the number. */
  lemma WrongDigitIsError(base: char, digits: string, wrong: char)
    requires IsBaseMark(base) && digits != "" && AreBaseDigits(base, digits) && IsDigit(wrong) && wrong !in DigitsOf(base)
    ensures var text := ['0', base] + digits + [wrong]; LexemeAt(text, 0) == (Error, |text|)
  {
    var text := ['0', base] + digits + [wrong];
    var end := 2 + |digits|;
    forall k | 2 <= k < end ensures IsBaseDigit(base, text[k]) && text[k] != '_' {
      assert text[k] == digits[k - 2] && digits[k - 2] in digits;
      BaseDigitsAre(base, digits[k - 2]);
    }
    BaseDigitsAre(base, wrong);
    BaseStops(text, 2, end, base);
    assert WordEnd(text, end + 1) == end + 1;
    assert WordEnd(text, end) == end + 1;
  }

  lemma {:induction false} GroupsRun(b: string, i: nat)
    requires i <= |b| && forall k | i <= k < |b| :: IsDigit(b[k]) || b[k] == '_'
    ensures DigitsEnd(b, i) == |b|
    decreases |b| - i
  {
    if i < |b| {
      GroupsRun(b, i + 1);
    }
  }

  /** Underscores group digits, but may not come last. */
  lemma UnderscoresGroup(text: string)
    requires text != "" && IsDigit(text[0]) && forall c <- text :: IsDigit(c) || c == '_'
    ensures LexemeAt(text, 0) == (if text[|text| - 1] == '_' then Error else Integer, |text|)
  {
    forall k | 0 <= k < |text| ensures IsDigit(text[k]) || text[k] == '_' {
      assert text[k] in text;
    }
    GroupsRun(text, 0);
    assert FractionEnd(text, |text|) == |text| == ExponentEnd(text, |text|);
    assert WordEnd(text, |text|) == |text|;
  }

  // ----- Quoted literals -----

  /** No quote, backslash or newline. */
  predicate IsPlainBody(quote: char, body: string) {
    quote !in body && '\\' !in body && '\n' !in body
  }

  lemma {:induction false} PlainBodyIsScanned(b: string, i: nat, quote: char, empty: bool)
    requires i < |b| && b[|b| - 1] == quote && IsPlainBody(quote, b[i..|b| - 1])
    ensures ScanQuoted(b, i, quote, false, empty) == Quoted(|b|, true, false, empty && i == |b| - 1)
    decreases |b| - i
  {
    if i < |b| - 1 {
      assert b[i] == b[i..|b| - 1][0];
      assert b[i..|b| - 1][1..] == b[i + 1..|b| - 1];
      PlainBodyIsScanned(b, i + 1, quote, false);
    }
  }

  lemma QuotesMakeString(body: string)
    requires IsPlainBody('"', body)
    ensures var text := "\"" + body + "\""; LexemeAt(text, 0) == (String, |text|)
  {
    var text := "\"" + body + "\"";
    assert text[1..|text| - 1] == body;
    PlainBodyIsScanned(text, 1, '"', true);
  }

  /** In single quotes there must be something; how much is not looked at. */
  lemma QuotesMakeChar(body: string)
    requires IsPlainBody('\'', body)
    ensures var text := "'" + body + "'"; LexemeAt(text, 0) == (if body == "" then Error else Char, |text|)
  {
    var text := "'" + body + "'";
    assert text[1..|text| - 1] == body;
    PlainBodyIsScanned(text, 1, '\'', true);
  }

  /** A backslash makes a valid literal with just these characters behind it. */
  lemma EscapesAre(c: char)
    requires c != '\n' && c != 'u' && c != '"'
    ensures var text := ['"', '\\', c, '"'];
      LexemeAt(text, 0) == (if c in "ntr\\'0" then String else Error, 4)
  {
    var text := ['"', '\\', c, '"'];
    assert ScanQuoted(text, 3, '"', !IsEscape(c), false) == Quoted(4, true, !IsEscape(c), false);
    assert ScanQuoted(text, 1, '"', false, true) == Quoted(4, true, !IsEscape(c), false);
  }

  /** A braced hexadecimal number behind `\u` is one character of the literal. */
  lemma UnicodeIsRead(digits: string)
    requires digits != "" && AreBaseDigits('x', digits)
    ensures var text := "\"\\u{" + digits + "}\""; LexemeAt(text, 0) == (String, |text|)
  {
    var text, end := "\"\\u{" + digits + "}\"", 4 + |digits|;
    assert text[1] == '\\' && text[2] == 'u' && text[3] == '{' && text[end] == '}' && text[end + 1] == '"';
    forall k | 4 <= k < end ensures IsHexDigit(text[k]) {
      assert text[k] == digits[k - 4] && digits[k - 4] in digits;
      BaseDigitsAre('x', digits[k - 4]);
    }
    HexRuns(text, 4, end);
    assert UnicodeEnd(text, 3) == Some(end + 1);
    assert ScanQuoted(text, end + 1, '"', false, false) == Quoted(|text|, true, false, false);
  }

  lemma {:induction false} HexRuns(b: string, i: nat, j: nat)
    requires i <= j < |b| && (forall k | i <= k < j :: IsHexDigit(b[k])) && !IsHexDigit(b[j])
    ensures HexEnd(b, i) == j
    decreases j - i
  {
    if i < j {
      HexRuns(b, i + 1, j);
    }
  }
}
