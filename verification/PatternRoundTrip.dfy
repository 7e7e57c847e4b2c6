/** Reading back printed patterns. */
module PatternRoundTrip {
  import opened Options
  import opened Tokens
  import opened Grammar
  import opened TypeSyntax
  import opened PatternSyntax
  import T = TypeRoundTrip
  import A = Ast

  /** What follows a pattern and cannot become part of it. */
  predicate EndsPattern(k: Stream) {
    k.More? && k.head.kind != ColonColon && k.head.kind != Pipe
  }

  predicate EndsAlternative(k: Stream) {
    k.More? && k.head.kind != ColonColon
  }

  // ----- Steps -----

  lemma Step(x: Word, k: Stream, c: Cursor)
    requires c.ts == More(x, k) && x.reserved == 0 && x.kind != Eof
    ensures c.Check(x.kind) && Advance(c) == c.(ts := k)
  {
  }

  predicate StartsPattern(kind: Kind) {
    || kind == Underscore || kind == Mut || kind == LParen || kind == Amp
    || IsLiteral(kind) || IsPathSegment(kind)
  }

  lemma BareHead(p: A.Pattern, k: Stream)
    requires IsPattern(p) && !p.OrPattern?
    ensures Bare(p, k).More? && StartsPattern(Bare(p, k).head.kind)
    ensures Bare(p, k).head.kind == Mut ==> p.MutIdentPattern?
  {
  }

  lemma PatternHead(p: A.Pattern, k: Stream)
    requires IsPattern(p)
    ensures Print(p, k).More? && StartsPattern(Print(p, k).head.kind)
  {
    match p
    case OrPattern(first, rest) =>
      assert Print(p, k) == PrintAlternative(first, PrintRest(rest, k));
      if !first.OrPattern? { BareHead(first, PrintRest(rest, k)); }
    case _ => BareHead(p, k);
  }

  // ----- Reading back -----

  /** A whole pattern. */
  lemma {:induction false} PatternReads(p: A.Pattern, k: Stream, c: Cursor)
    requires IsPattern(p) && c.bank == 0 && c.ts == Print(p, k) && EndsPattern(k)
    ensures ParsePattern(c) == Ok(p, c.(ts := k))
    decreases p, 1
  {
    match p
    case OrPattern(first, rest) =>
      var tail := PrintRest(rest, k);
      AlternativeReads(first, tail, c);
      var next := PrintAlternative(rest[0], PrintRest(rest[1..], k));
      Step(PIPE, next, c.(ts := tail));
      RestReads(rest, [], k, c.(ts := next));
      assert [] + rest == rest;
      OrStep(c, first, c.(ts := tail));
    case _ =>
      BareReads(p, k, c);
  }

  lemma OrStep(c: Cursor, first: A.Pattern, c1: Cursor)
    requires ParsePrimaryPattern(c) == Ok(first, c1) && c1.Check(Pipe) && ParseAlternatives(Advance(c1), []).Ok?
    ensures var r := ParseAlternatives(Advance(c1), []); ParsePattern(c) == Ok(A.OrPattern(first, r.value), r.c)
  {
  }

  lemma {:induction false} AlternativeReads(p: A.Pattern, k: Stream, c: Cursor)
    requires IsPattern(p) && c.bank == 0 && c.ts == PrintAlternative(p, k) && EndsAlternative(k)
    ensures ParsePrimaryPattern(c) == Ok(p, c.(ts := k))
    decreases p, 3
  {
    if p.OrPattern? {
      ParensRead(p, k, c);
    } else {
      BareReads(p, k, c);
    }
  }

  lemma {:induction false} ParensRead(p: A.Pattern, k: Stream, c: Cursor)
    requires IsPattern(p) && c.bank == 0 && c.ts == InParens(p, k)
    ensures ParsePrimaryPattern(c) == Ok(p, c.(ts := k))
    decreases p, 2
  {
    var close := More(RPAREN, k);
    Step(LPAREN, Print(p, close), c);
    PatternReads(p, close, Advance(c));
    Step(RPAREN, k, c.(ts := close));
  }

  /** Alternatives after the first bar. */
  lemma {:induction false} RestReads(ps: seq<A.Pattern>, before: seq<A.Pattern>, k: Stream, c: Cursor)
    requires ps != [] && (forall q <- ps :: IsPattern(q)) && c.bank == 0 && EndsPattern(k)
    requires c.ts == PrintAlternative(ps[0], PrintRest(ps[1..], k))
    ensures ParseAlternatives(c, before) == Ok(before + ps, c.(ts := k))
    decreases ps, 0
  {
    var tail := PrintRest(ps[1..], k);
    AlternativeReads(ps[0], tail, c);
    T.Regroup(before, ps);
    if |ps| > 1 {
      var next := PrintAlternative(ps[1], PrintRest(ps[2..], k));
      assert ps[1..][1..] == ps[2..];
      Step(PIPE, next, c.(ts := tail));
      RestReads(ps[1..], before + [ps[0]], k, c.(ts := next));
    }
  }

  lemma {:induction false} BareReads(p: A.Pattern, k: Stream, c: Cursor)
    requires IsPattern(p) && !p.OrPattern? && c.bank == 0 && c.ts == Bare(p, k) && EndsAlternative(k)
    ensures ParsePrimaryPattern(c) == Ok(p, c.(ts := k))
    decreases p, 0
  {
    match p
    case WildcardPattern => Step(UNDERSCORE, k, c);
    case IdentPattern(name) => IdentReads(name, k, c);
    case MutIdentPattern(name) =>
      Step(MUT, More(Word(Ident, name, 0), k), c);
      Step(Word(Ident, name, 0), k, Advance(c));
    case LiteralPattern(value) => Step(LiteralWord(value), k, c);
    case TuplePattern(head, elements) =>
      if head.None? { TupleReads(elements, k, c, p); } else { VariantReads(head.value, elements, k, c, p); }
    case StructPattern(path, fields) => StructReads(path, fields, k, c, p);
    case RefPattern(isMut, inner) => RefReads(isMut, inner, k, c, p);
  }

  lemma PathFollows(c: Cursor)
    requires IsPathSegment(c.Peek())
    ensures ParsePrimaryPattern(c) == ParsePathPattern(c)
  {
  }

  lemma IdentReads(name: string, k: Stream, c: Cursor)
    requires IsBinding([name]) && c.bank == 0 && c.ts == More(SegmentWord(name), k) && EndsAlternative(k)
    ensures ParsePrimaryPattern(c) == Ok(A.IdentPattern(name), c.(ts := k))
  {
    T.PrintedPathReads([name], c, k);
    PathFollows(c);
  }

  lemma {:induction false} RefReads(isMut: bool, inner: A.Pattern, k: Stream, c: Cursor, p: A.Pattern)
    requires p == A.RefPattern(isMut, inner) && IsPattern(p) && c.bank == 0 && c.ts == Bare(p, k) && EndsAlternative(k)
    ensures ParsePrimaryPattern(c) == Ok(p, c.(ts := k))
    decreases inner, 4
  {
    var tail := PrintReferred(isMut, inner, k);
    var c1 := c.(ts := tail);
    if isMut {
      Step(AMP, More(MUT, tail), c);
      Step(MUT, tail, Advance(c));
    } else {
      Step(AMP, tail, c);
      if !inner.OrPattern? { BareHead(inner, k); }
    }
    if inner.OrPattern? || (!isMut && inner.MutIdentPattern?) {
      ParensRead(inner, k, c1);
    } else {
      BareReads(inner, k, c1);
    }
    RefStep(c, isMut, c1);
  }

  lemma RefStep(c: Cursor, isMut: bool, c1: Cursor)
    requires c.Peek() == Amp && Advance(c).Check(Mut) == isMut
    requires c1 == (if isMut then Advance(Advance(c)) else Advance(c)) && ParsePrimaryPattern(c1).Ok?
    ensures var r := ParsePrimaryPattern(c1); ParsePrimaryPattern(c) == Ok(A.RefPattern(isMut, r.value), r.c)
  {
  }

  // ----- Tuples, variants and structs -----

  lemma {:induction false} TupleReads(elements: seq<A.Pattern>, k: Stream, c: Cursor, p: A.Pattern)
    requires p == A.TuplePattern(None, elements) && IsPattern(p) && c.bank == 0 && c.ts == Bare(p, k)
    ensures ParsePrimaryPattern(c) == Ok(p, c.(ts := k))
    decreases elements, 1
  {
    var close := More(RPAREN, k);
    var later := PrintList(elements[1..], close);
    var next := More(COMMA, later);
    Step(LPAREN, Print(elements[0], next), c);
    PatternReads(elements[0], next, Advance(c));
    Step(COMMA, later, c.(ts := next));
    ElementsRead(elements[1..], [elements[0]], k, c.(ts := later));
    assert [elements[0]] + elements[1..] == elements;
    Step(RPAREN, k, c.(ts := close));
    TupleStep(c, elements, c.(ts := next), c.(ts := close));
  }

  lemma TupleStep(c: Cursor, elements: seq<A.Pattern>, c1: Cursor, c2: Cursor)
    requires c.Peek() == LParen && elements != []
    requires ParsePattern(Advance(c)) == Ok(elements[0], c1) && c1.Check(Comma)
    requires ParseTuplePatterns(Advance(c1), [elements[0]]) == Ok(elements, c2) && c2.Check(RParen)
    ensures ParsePrimaryPattern(c) == Ok(A.TuplePattern(None, elements), Advance(c2))
  {
  }

  lemma {:induction false} ElementsRead(ps: seq<A.Pattern>, before: seq<A.Pattern>, k: Stream, c: Cursor)
    requires (forall q <- ps :: IsPattern(q)) && c.bank == 0 && c.ts == PrintList(ps, More(RPAREN, k))
    ensures ParseTuplePatterns(c, before) == Ok(before + ps, c.(ts := More(RPAREN, k)))
    decreases ps, 0
  {
    var close := More(RPAREN, k);
    if ps == [] {
      assert before + ps == before;
    } else {
      var tail := if |ps| == 1 then close else More(COMMA, PrintList(ps[1..], close));
      PatternHead(ps[0], tail);
      PatternReads(ps[0], tail, c);
      T.Regroup(before, ps);
      if |ps| > 1 {
        var later := PrintList(ps[1..], close);
        Step(COMMA, later, c.(ts := tail));
        ElementsRead(ps[1..], before + [ps[0]], k, c.(ts := later));
      }
    }
  }

  lemma {:induction false} VariantReads(path: A.Path, elements: seq<A.Pattern>, k: Stream, c: Cursor, p: A.Pattern)
    requires p == A.TuplePattern(Some(path), elements) && IsPattern(p) && c.bank == 0 && c.ts == Bare(p, k)
    ensures ParsePrimaryPattern(c) == Ok(p, c.(ts := k))
    decreases elements, 2
  {
    var inside := PrintList(elements, More(RPAREN, k));
    T.PrintedPathReads(path, c, More(LPAREN, inside));
    PathFollows(c);
    Step(LPAREN, inside, c.(ts := More(LPAREN, inside)));
    ArgsRead(elements, k, c.(ts := inside));
  }

  lemma {:induction false} ArgsRead(ps: seq<A.Pattern>, k: Stream, c: Cursor)
    requires (forall q <- ps :: IsPattern(q)) && c.bank == 0 && c.ts == PrintList(ps, More(RPAREN, k))
    ensures ParsePatternArgs(c) == Ok(ps, c.(ts := k))
    decreases ps, 1
  {
    var close := More(RPAREN, k);
    Step(RPAREN, k, c.(ts := close));
    if ps != [] {
      PatternHead(ps[0], if |ps| == 1 then close else More(COMMA, PrintList(ps[1..], close)));
      ListReads(ps, [], k, c);
      assert [] + ps == ps;
    }
  }

  lemma {:induction false} ListReads(ps: seq<A.Pattern>, before: seq<A.Pattern>, k: Stream, c: Cursor)
    requires ps != [] && (forall q <- ps :: IsPattern(q)) && c.bank == 0 && c.ts == PrintList(ps, More(RPAREN, k))
    ensures ParsePatternList(c, before) == Ok(before + ps, c.(ts := More(RPAREN, k)))
    decreases ps, 0
  {
    var close := More(RPAREN, k);
    var tail := if |ps| == 1 then close else More(COMMA, PrintList(ps[1..], close));
    PatternReads(ps[0], tail, c);
    T.Regroup(before, ps);
    ListStep(before, ps[0], c, c.(ts := tail));
    if |ps| > 1 {
      var later := PrintList(ps[1..], close);
      Step(COMMA, later, c.(ts := tail));
      PatternHead(ps[1], if |ps| == 2 then close else More(COMMA, PrintList(ps[1..][1..], close)));
      ListReads(ps[1..], before + [ps[0]], k, c.(ts := later));
    }
  }

  lemma ListStep(before: seq<A.Pattern>, p: A.Pattern, c: Cursor, c1: Cursor)
    requires ParsePattern(c) == Ok(p, c1)
    ensures ParsePatternList(c, before) ==
      if !c1.Check(Comma) then Ok(before + [p], c1)
      else if Advance(c1).Check(RParen) then Ok(before + [p], Advance(c1))
      else ParsePatternList(Advance(c1), before + [p])
  {
  }

  lemma {:induction false} StructReads(path: A.Path, fields: seq<A.FieldPattern>, k: Stream, c: Cursor, p: A.Pattern)
    requires p == A.StructPattern(path, fields) && IsPattern(p) && c.bank == 0 && c.ts == Bare(p, k)
    ensures ParsePrimaryPattern(c) == Ok(p, c.(ts := k))
    decreases fields, 2
  {
    var close := More(RBRACE, k);
    var inside := PrintFields(fields, close);
    T.PrintedPathReads(path, c, More(LBRACE, inside));
    PathFollows(c);
    Step(LBRACE, inside, c.(ts := More(LBRACE, inside)));
    FieldsRead(fields, [], k, c.(ts := inside));
    assert [] + fields == fields;
    Step(RBRACE, k, c.(ts := close));
  }

  lemma {:induction false} FieldsRead(fields: seq<A.FieldPattern>, before: seq<A.FieldPattern>, k: Stream, c: Cursor)
    requires (forall f <- fields :: IsShort(f) || IsPattern(f.pattern))
    requires c.bank == 0 && c.ts == PrintFields(fields, More(RBRACE, k))
    ensures ParseFieldPatterns(c, before) == Ok(before + fields, c.(ts := More(RBRACE, k)))
    decreases fields, 1
  {
    var close := More(RBRACE, k);
    if fields == [] {
      assert before + fields == before;
    } else {
      var tail := if |fields| == 1 then close else More(COMMA, PrintFields(fields[1..], close));
      FieldReads(fields[0], before, tail, c);
      T.Regroup(before, fields);
      if |fields| > 1 {
        var later := PrintFields(fields[1..], close);
        Step(COMMA, later, c.(ts := tail));
        FieldsRead(fields[1..], before + [fields[0]], k, c.(ts := later));
      }
    }
  }

  lemma {:induction false} FieldReads(f: A.FieldPattern, before: seq<A.FieldPattern>, tail: Stream, c: Cursor)
    requires (IsShort(f) || IsPattern(f.pattern)) && c.bank == 0 && c.ts == PrintField(f, tail)
    requires tail.More? && (tail.head == COMMA || tail.head == RBRACE)
    ensures var c2 := c.(ts := tail);
      ParseFieldPatterns(c, before)
        == if c2.Check(Comma) then ParseFieldPatterns(Advance(c2), before + [f]) else Ok(before + [f], c2)
    decreases f, 0
  {
    if IsShort(f) {
      Step(Word(Ident, f.name, 0), tail, c);
      assert f == A.FieldPattern(f.name, A.IdentPattern(f.name));
    } else {
      var sub := Print(f.pattern, tail);
      Step(Word(Ident, f.name, 0), More(COLON, sub), c);
      Step(COLON, sub, Advance(c));
      PatternReads(f.pattern, tail, c.(ts := sub));
      FieldStep(before, f, c, c.(ts := sub), c.(ts := tail));
    }
  }

  lemma FieldStep(before: seq<A.FieldPattern>, f: A.FieldPattern, c: Cursor, c1: Cursor, c2: Cursor)
    requires c.Check(Ident) && c.ts.head.spelling == f.name && Advance(c).Check(Colon) && c1 == Advance(Advance(c))
    requires ParsePattern(c1) == Ok(f.pattern, c2)
    ensures ParseFieldPatterns(c, before)
      == if c2.Check(Comma) then ParseFieldPatterns(Advance(c2), before + [f]) else Ok(before + [f], c2)
  {
  }

  /** A name by itself binds a variable if it begins with a small letter or an underscore, and
      names a variant otherwise. */
  lemma FirstLetterTells(name: string, k: Stream, c: Cursor)
    requires name != "" && c.bank == 0 && c.ts == More(Word(Ident, name, 0), k)
    requires k.More? && k.head.kind != ColonColon && k.head.kind != LParen && k.head.kind != LBrace
    ensures ParsePrimaryPattern(c) ==
      Ok(if name[0] == '_' || 'a' <= name[0] <= 'z' then A.IdentPattern(name) else A.TuplePattern(Some([name]), []), c.(ts := k))
  {
    Step(Word(Ident, name, 0), k, c);
    assert ParsePath(c, []) == Ok([name], c.(ts := k)) by { assert [] + [name] == [name]; }
    PathFollows(c);
  }

  // ----- Whatever is read can be printed -----

  ghost predicate Prints(r: Parsed<A.Pattern>) {
    r.Ok? ==> IsPattern(r.value)
  }

  predicate ArePatterns(ps: seq<A.Pattern>) {
    forall q <- ps :: IsPattern(q)
  }

  predicate AreFields(fields: seq<A.FieldPattern>) {
    forall f <- fields :: IsShort(f) || IsPattern(f.pattern)
  }

  lemma {:induction false} ReadPatternPrints(c: Cursor)
    ensures Prints(ParsePattern(c))
    decreases c.Left(), 4
  {
    ReadAlternativePrints(c);
    var r := ParsePrimaryPattern(c);
    if r.Ok? && r.c.Check(Pipe) {
      ReadRestPrints(Advance(r.c), []);
    }
  }

  lemma {:induction false} ReadRestPrints(c: Cursor, rest: seq<A.Pattern>)
    requires ArePatterns(rest)
    ensures var r := ParseAlternatives(c, rest); r.Ok? ==> ArePatterns(r.value) && r.value != []
    decreases c.Left(), 4
  {
    ReadAlternativePrints(c);
    var r := ParsePrimaryPattern(c);
    if r.Ok? && r.c.Check(Pipe) {
      ReadRestPrints(Advance(r.c), rest + [r.value]);
    }
  }

  lemma {:induction false} ReadAlternativePrints(c: Cursor)
    ensures Prints(ParsePrimaryPattern(c))
    decreases c.Left(), 3
  {
    var kind := c.Peek();
    if kind == Underscore || kind == Mut || IsLiteral(kind) || kind == Minus {
    } else if kind == Amp {
      var c1 := Advance(c);
      ReadAlternativePrints(if c1.Check(Mut) then Advance(c1) else c1);
    } else if kind == LParen {
      ReadPatternPrints(Advance(c));
      var r := ParsePattern(Advance(c));
      if r.Ok? && r.c.Check(Comma) {
        ReadTuplePrints(Advance(r.c), [r.value]);
      }
    } else {
      ReadPathPatternPrints(c);
    }
  }

  lemma {:induction false} ReadPathPatternPrints(c: Cursor)
    ensures Prints(ParsePathPattern(c))
    decreases c.Left(), 2
  {
    var r := ParsePath(c, []);
    if r.Ok? && !IsBinding(r.value) {
      if r.c.Check(LParen) {
        var c1 := Advance(r.c);
        if !c1.Check(RParen) { ReadListPrints(c1, []); }
      } else if r.c.Check(LBrace) {
        ReadFieldsPrint(Advance(r.c), []);
      }
    } else if r.Ok? {
      assert r.value == [r.value[0]];
    }
  }

  lemma {:induction false} ReadTuplePrints(c: Cursor, elements: seq<A.Pattern>)
    requires ArePatterns(elements) && elements != []
    ensures var r := ParseTuplePatterns(c, elements); r.Ok? ==> ArePatterns(r.value) && r.value != []
    decreases c.Left(), 5
  {
    if !c.Check(RParen) && !c.AtEnd() {
      ReadPatternPrints(c);
      var r := ParsePattern(c);
      if r.Ok? && r.c.Check(Comma) {
        ReadTuplePrints(Advance(r.c), elements + [r.value]);
      }
    }
  }

  lemma {:induction false} ReadListPrints(c: Cursor, elements: seq<A.Pattern>)
    requires ArePatterns(elements)
    ensures var r := ParsePatternList(c, elements); r.Ok? ==> ArePatterns(r.value)
    decreases c.Left(), 5
  {
    ReadPatternPrints(c);
    var r := ParsePattern(c);
    if r.Ok? && r.c.Check(Comma) && !Advance(r.c).Check(RParen) {
      ReadListPrints(Advance(r.c), elements + [r.value]);
    }
  }

  lemma {:induction false} ReadFieldsPrint(c: Cursor, fields: seq<A.FieldPattern>)
    requires AreFields(fields)
    ensures var r := ParseFieldPatterns(c, fields); r.Ok? ==> AreFields(r.value)
    decreases c.Left(), 5
  {
    if !c.Check(RBrace) && !c.AtEnd() {
      var r := ParseIdent(c);
      if r.Ok? && r.c.Check(Colon) {
        ReadPatternPrints(Advance(r.c));
        var sub := ParsePattern(Advance(r.c));
        if sub.Ok? && sub.c.Check(Comma) {
          ReadFieldsPrint(Advance(sub.c), fields + [A.FieldPattern(r.value, sub.value)]);
        }
      } else if r.Ok? && r.c.Check(Comma) {
        ReadFieldsPrint(Advance(r.c), fields + [A.FieldPattern(r.value, A.IdentPattern(r.value))]);
      }
    }
  }

  /** So every pattern that is read, from whatever words, reads back from its print. */
  lemma ReadAgain(c: Cursor, c1: Cursor, k: Stream)
    requires ParsePattern(c).Ok? && EndsPattern(k)
    requires c1.bank == 0 && c1.ts == Print(ParsePattern(c).value, k)
    ensures ParsePattern(c1) == Ok(ParsePattern(c).value, c1.(ts := k))
  {
    ReadPatternPrints(c);
    PatternReads(ParsePattern(c).value, k, c1);
  }

  // ----- What follows -----

  /** Different patterns are never printed alike. */
  lemma PrintingIsUnambiguous(p: A.Pattern, q: A.Pattern, rest: Stream)
    requires IsPattern(p) && IsPattern(q) && EndsPattern(rest) && Print(p, rest) == Print(q, rest)
    ensures p == q
  {
    var c := Cursor(Print(p, rest), 0, true, 0);
    PatternReads(p, rest, c);
    PatternReads(q, rest, c);
  }

  /** A minus sign is read and forgotten: a negative number is the pattern that the number
      itself is. */
  lemma SignIsForgotten(value: A.Literal, rest: Stream, c: Cursor)
    requires value.kind == A.IntegerLiteral || value.kind == A.FloatLiteral
    requires c.bank == 0 && c.ts == More(Word(Minus, "-", 0), Bare(A.LiteralPattern(value), rest)) && EndsPattern(rest)
    ensures ParsePattern(c) == Ok(A.LiteralPattern(value), c.(ts := rest))
    ensures ParsePattern(c) == ParsePattern(c.(ts := c.ts.tail))
  {
    BareReads(A.LiteralPattern(value), rest, c.(ts := c.ts.tail));
  }
}
