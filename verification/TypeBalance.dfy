/** How the split of `>>` keeps count: no `>` is lost or made up, so that what is left in the
    bank is what the words read were short of `<`. */
module TypeBalance {
  import opened Options
  import opened Tokens
  import opened Grammar
  import opened TypeSyntax
  import opened TypeRoundTrip
  import A = Ast

  function Weight(kind: Kind): int {
    if kind == Less then -1 else if kind == Greater then 1 else if kind == GreaterGreater then 2 else 0
  }

  /** The `>` in the words, less the `<`. */
  function Sum(s: Stream): int {
    match s
    case End => 0
    case More(w, tail) => Weight(w.kind) + Sum(tail)
  }

  /** What comes after the bracket that closes the `depth` open ones, counting parentheses
      or braces only. */
  function AfterClose(s: Stream, curly: bool, depth: nat): Stream {
    match s
    case End => End
    case More(w, tail) =>
      if w.kind == (if curly then LBrace else LParen) then AfterClose(tail, curly, depth + 1)
      else if w.kind == (if curly then RBrace else RParen) then
        if depth <= 1 then tail else AfterClose(tail, curly, depth - 1)
      else AfterClose(tail, curly, depth)
  }

  /** From `s` to `t` brackets are closed as often as they are opened, and never more. */
  ghost predicate Level(s: Stream, t: Stream) {
    forall curly: bool, depth: nat | depth > 0 :: AfterClose(s, curly, depth) == AfterClose(t, curly, depth)
  }

  function Balance(c: Cursor): int {
    c.bank + Sum(c.ts)
  }

  /** A successful rule has used up as many `>` as `<`, the banked ones included, and has left
      no bracket open. */
  ghost predicate Balanced<T>(c: Cursor, r: Parsed<T>) {
    r.Ok? ==> Balance(r.c) == Balance(c) && Level(c.ts, r.c.ts)
  }

  predicate IsBracket(kind: Kind) {
    kind == LParen || kind == RParen || kind == LBrace || kind == RBrace
  }

  lemma InsideParens(c: Cursor, c1: Cursor)
    requires c.Check(LParen) && Level(Advance(c).ts, c1.ts) && c1.Check(RParen)
    ensures Level(c.ts, Advance(c1).ts)
  {
    forall curly: bool, depth: nat | depth > 0
      ensures AfterClose(c.ts, curly, depth) == AfterClose(Advance(c1).ts, curly, depth)
    {
      if !curly {
        assert AfterClose(c.ts, curly, depth) == AfterClose(Advance(c).ts, curly, depth + 1);
      } else {
        assert AfterClose(c.ts, curly, depth) == AfterClose(Advance(c).ts, curly, depth);
      }
    }
  }

  lemma StepIsBalanced(c: Cursor)
    requires !c.AtEnd() && Weight(c.Peek()) == 0
    ensures Balance(Advance(c)) == Balance(c)
    ensures !IsBracket(c.Peek()) ==> Level(c.ts, Advance(c).ts)
  {
  }

  lemma {:induction false} PathIsBalanced(c: Cursor, segments: A.Path)
    ensures Balanced(c, ParsePath(c, segments))
    ensures ParsePath(c, segments).c.bank == c.bank
    decreases c.Left()
  {
    if IsPathSegment(c.Peek()) {
      StepIsBalanced(c);
      if Advance(c).Check(ColonColon) {
        StepIsBalanced(Advance(c));
        if !Advance(Advance(c)).AtEnd() {
          PathIsBalanced(Advance(Advance(c)), segments + [c.ts.head.spelling]);
        }
      }
    }
  }

  lemma GtWeighsOne(c: Cursor)
    ensures ConsumeGt(c).Ok? ==> Balance(ConsumeGt(c).c) == Balance(c) - 1 && Level(c.ts, ConsumeGt(c).c.ts)
  {
  }

  lemma {:induction false} TypeIsBalanced(c: Cursor)
    ensures Balanced(c, ParseType(c))
    decreases c.Left(), 2
  {
    if c.Peek() == LParen {
      ParenthesizedIsBalanced(c);
    } else if c.Peek() == Amp {
      StepIsBalanced(c);
      var c1 := Advance(c);
      if c1.Check(Mut) {
        StepIsBalanced(c1);
      }
      TypeIsBalanced(if c1.Check(Mut) then Advance(c1) else c1);
    } else if c.Peek() != Bang && c.Peek() != Str && PrimitiveOf(c.Peek()).None? {
      PathTypeIsBalanced(c);
    }
  }

  lemma {:induction false} ParenthesizedIsBalanced(c: Cursor)
    requires c.Peek() == LParen
    ensures Balanced(c, ParseParenthesizedType(c))
    decreases c.Left(), 0
  {
    var c1 := Advance(c);
    if c1.Check(RParen) {
      StepIsBalanced(c);
      StepIsBalanced(c1);
      InsideParens(c, c1);
    } else {
      TypeIsBalanced(c1);
      var r := ParseType(c1);
      if r.Ok? && r.c.Check(Comma) {
        TupleTypesAreBalanced(Advance(r.c), [r.value]);
        var rest := ParseTupleTypes(Advance(r.c), [r.value]);
        if rest.Ok? && rest.c.Check(RParen) {
          InsideParens(c, rest.c);
        }
      } else if r.Ok? && r.c.Check(RParen) {
        InsideParens(c, r.c);
      }
    }
  }

  lemma {:induction false} PathTypeIsBalanced(c: Cursor)
    ensures Balanced(c, ParsePathType(c))
    decreases c.Left(), 1
  {
    PathIsBalanced(c, []);
    var r := ParsePath(c, []);
    if r.Ok? && r.c.Check(Less) {
      var c2 := Advance(r.c);
      GtWeighsOne(c2);
      if !ClosesArgs(c2) {
        TypeArgsAreBalanced(c2, []);
        GtWeighsOne(ParseTypeArgs(c2, []).c);
      }
    }
  }

  lemma {:induction false} TupleTypesAreBalanced(c: Cursor, elements: seq<A.Type>)
    ensures Balanced(c, ParseTupleTypes(c, elements))
    decreases c.Left(), 3
  {
    if !c.Check(RParen) && !c.AtEnd() {
      TypeIsBalanced(c);
      var r := ParseType(c);
      if r.Ok? && r.c.Check(Comma) {
        TupleTypesAreBalanced(Advance(r.c), elements + [r.value]);
      }
    }
  }

  lemma {:induction false} TypeArgsAreBalanced(c: Cursor, args: seq<A.Type>)
    ensures Balanced(c, ParseTypeArgs(c, args))
    decreases c.Left(), 3
  {
    TypeIsBalanced(c);
    var r := ParseType(c);
    if r.Ok? && r.c.Check(Comma) && !ClosesArgs(Advance(r.c)) {
      TypeArgsAreBalanced(Advance(r.c), args + [r.value]);
    }
  }

  /** A type that is read is accepted as a closed one exactly if its words, with what was banked
      before, have as many `>` as `<`.  Otherwise it is rejected, and that is reported exactly if
      no `>` is next: one that is next is consumed, with the reserved words behind it reported
      as anywhere. */
  lemma ClosedExactlyWhenBalanced(c: Cursor)
    requires ParseType(c).Ok?
    ensures var end, r := ParseType(c).c, ParseClosedType(c);
      && (r.Ok? <==> Balance(c) == Sum(end.ts)) && (r.Ok? ==> r.c == end)
      && (r.Fail? ==> r.c.bank == 0 && if end.Check(Greater) then r.c == Advance(end).(bank := 0)
                                       else r.c == end.Report().(bank := 0))
      && (r.Fail? ==> (r.c.diags > end.diags <==> !end.Check(Greater) || end.ts.head.reserved > 0))
  {
    TypeIsBalanced(c);
  }

  // ----- Variants -----

  lemma {:induction false} PayloadTypesAreBalanced(c: Cursor, fields: seq<A.Type>)
    ensures Balanced(c, ParsePayloadTypes(c, fields))
    decreases c.Left()
  {
    TypeIsBalanced(c);
    var r := ParseType(c);
    if r.Ok? && r.c.Check(Comma) && !Advance(r.c).Check(RParen) {
      PayloadTypesAreBalanced(Advance(r.c), fields + [r.value]);
    }
  }

  /** From inside a parenthesis to just past its end. */
  lemma PayloadCloses(c: Cursor)
    ensures var r := ParsePayload(c); r.Ok? ==>
      && Balance(r.c) == Balance(c) && r.c.ts == AfterClose(c.ts, false, 1)
      && (forall depth: nat | depth > 0 :: AfterClose(c.ts, false, depth + 1) == AfterClose(r.c.ts, false, depth))
      && forall depth: nat | depth > 0 :: AfterClose(c.ts, true, depth) == AfterClose(r.c.ts, true, depth)
  {
    if !c.Check(RParen) {
      PayloadTypesAreBalanced(c, []);
    }
  }

  /** What comes after a variant: after its name, and its payload types if it has any. */
  function AfterVariant(s: Stream): Stream {
    if s.End? then End
    else if s.tail.More? && s.tail.head.kind == LParen then AfterClose(s.tail.tail, false, 1)
    else s.tail
  }

  lemma VariantIsBalanced(c: Cursor)
    ensures Balanced(c, ParseVariant(c))
    ensures ParseVariant(c).Ok? ==> ParseVariant(c).c.ts == AfterVariant(c.ts)
  {
    var r := ParseIdent(c);
    if r.Ok? {
      StepIsBalanced(c);
      if r.c.Check(LParen) {
        StepIsBalanced(r.c);
        PayloadCloses(Advance(r.c));
        PayloadIsLevel(r.c);
      }
    }
  }

  lemma PayloadIsLevel(c: Cursor)
    requires c.Check(LParen)
    ensures var r := ParsePayload(Advance(c)); r.Ok? ==> Level(c.ts, r.c.ts)
  {
    var r := ParsePayload(Advance(c));
    if r.Ok? {
      PayloadCloses(Advance(c));
      forall curly: bool, depth: nat | depth > 0
        ensures AfterClose(c.ts, curly, depth) == AfterClose(r.c.ts, curly, depth)
      {
        assert AfterClose(c.ts, curly, depth) == AfterClose(Advance(c).ts, curly, if curly then depth else depth + 1);
      }
    }
  }

  lemma {:induction false} VariantsAreBalanced(c: Cursor, variants: seq<A.EnumVariant>)
    ensures Balanced(c, ParseVariants(c, variants))
    decreases c.Left()
  {
    if !LoopEnds(c) {
      VariantIsBalanced(c);
      var r := ParseVariant(c);
      if r.Ok? && r.c.Check(Comma) {
        StepIsBalanced(r.c);
        VariantsAreBalanced(Advance(r.c), variants + [r.value]);
      }
    }
  }

  /** When a variant that is read, whose payload types need not be closed, leaves nothing in the
      bank: exactly if there are as many `>` as `<` in it, up to the parenthesis that matches the
      one after its name.  It leaves the surplus. */
  lemma VariantLeavesSurplus(c: Cursor)
    requires c.bank == 0 && ParseVariant(c).Ok?
    ensures var r, end := ParseVariant(c), AfterVariant(c.ts);
      && r.c.ts == end && r.c.bank == Sum(c.ts) - Sum(end)
      && (r.c.bank == 0 <==> Sum(c.ts) == Sum(end))
  {
    VariantIsBalanced(c);
  }

  /** What comes after an enum, from its name on. */
  function AfterEnum(s: Stream): Stream {
    if s.End? || s.tail.End? then End else AfterClose(s.tail.tail, true, 1)
  }

  /** The same for an enum as a whole, up to its closing brace: a surplus that no later payload
      of it has used up is still banked at its end. */
  lemma EnumLeavesSurplus(c: Cursor, isPub: bool)
    requires c.bank == 0 && ParseEnum(c, isPub).Ok?
    ensures var r, end := ParseEnum(c, isPub), AfterEnum(c.ts);
      && r.c.ts == end && r.c.bank == Sum(c.ts) - Sum(end)
      && (r.c.bank == 0 <==> Sum(c.ts) == Sum(end))
  {
    var c1 := ParseIdent(c).c;
    var c2 := Expect(c1, LBrace).c;
    StepIsBalanced(c);
    StepIsBalanced(c1);
    VariantsAreBalanced(c2, []);
    var r := ParseVariants(c2, []);
    StepIsBalanced(r.c);
    assert AfterClose(c2.ts, true, 1) == AfterClose(r.c.ts, true, 1);
  }

  // ----- What a surplus can do -----

  /** `x<y`, closed by whatever is there to close it. */
  lemma OneArgReads(x: string, y: string, c: Cursor)
    requires c.ts.More? && c.ts.head == Name(x) && c.ts.tail.More? && c.ts.tail.head == LESS
    requires var c1 := c.(ts := c.ts.tail.tail);
      c1.ts.More? && c1.ts.head == Name(y) && c1.ts.tail.More? && c1.ts.tail.head.kind in {RParen, GreaterGreater}
    requires ConsumeGt(c.(ts := c.ts.tail.tail.tail)).Ok?
    ensures ParseType(c) == Ok(A.PathType([x], [Named(y)]), ConsumeGt(c.(ts := c.ts.tail.tail.tail)).c)
  {
    LastArgReads(y, c.(ts := c.ts.tail.tail), []);
    assert [] + [Named(y)] == [Named(y)];
    NameWithArgsReads(x, c, [Named(y)], c.(ts := c.ts.tail.tail.tail));
  }

  /** Payload types of enum variants may leave half of a pair behind.  For any names, the
      variant `v(x<y>>)` is accepted with no diagnostics, and the surplus `>` stays in the
      bank, where a later type can use it. */
  lemma VariantLeavesHalf(v: string, x: string, y: string, rest: Stream, c: Cursor)
    requires c.bank == 0
    requires c.ts == More(Name(v), More(LPAREN, More(Name(x), More(LESS, More(Name(y), More(PAIR,
      More(RPAREN, rest)))))))
    ensures ParseVariant(c)
      == Ok(A.EnumVariant(v, [A.PathType([x], [Named(y)])]), c.(ts := rest, bank := 1))
  {
    var c1 := c.(ts := c.ts.tail.tail);
    OneArgReads(x, y, c1);
    LastPayload(c1, []);
    assert [] + [A.PathType([x], [Named(y)])] == [A.PathType([x], [Named(y)])];
    PayloadEnds(v, c);
  }

  lemma LastPayload(c: Cursor, before: seq<A.Type>)
    requires ParseType(c).Ok? && ParseType(c).c.Check(RParen)
    ensures ParsePayloadTypes(c, before) == Ok(before + [ParseType(c).value], ParseType(c).c)
  {
  }

  lemma PayloadEnds(v: string, c: Cursor)
    requires c.ts.More? && c.ts.head == Name(v) && c.ts.tail.More? && c.ts.tail.head == LPAREN
    requires var c1 := c.(ts := c.ts.tail.tail);
      !c1.Check(RParen) && ParsePayloadTypes(c1, []).Ok? && ParsePayloadTypes(c1, []).c.Check(RParen)
    ensures var r := ParsePayloadTypes(c.(ts := c.ts.tail.tail), []);
      ParseVariant(c) == Ok(A.EnumVariant(v, r.value), Advance(r.c))
  {
  }

  /** Nor need each payload type be balanced by itself.  For any names, the variant
      `v(x<y>>, z<w)` is accepted with no diagnostics: the second type takes the `>` that the
      first has left over. */
  lemma PayloadTakesHalf(v: string, x: string, y: string, z: string, w: string, rest: Stream, c: Cursor)
    requires c.bank == 0
    requires c.ts == More(Name(v), More(LPAREN, More(Name(x), More(LESS, More(Name(y), More(PAIR,
      More(COMMA, More(Name(z), More(LESS, More(Name(w), More(RPAREN, rest)))))))))))
    ensures ParseVariant(c)
      == Ok(A.EnumVariant(v, [A.PathType([x], [Named(y)]), A.PathType([z], [Named(w)])]), c.(ts := rest))
  {
    var ofX, ofZ := A.PathType([x], [Named(y)]), A.PathType([z], [Named(w)]);
    var c1 := c.(ts := c.ts.tail.tail);
    var atComma := c.(ts := c1.ts.tail.tail.tail.tail, bank := 1);
    OneArgReads(x, y, c1);
    assert ParseType(c1) == Ok(ofX, atComma);
    TwoPayloads(z, w, ofX, rest, atComma.(ts := atComma.ts.tail));
    assert [] + [ofX] == [ofX];
    assert ParsePayloadTypes(c1, []) == ParsePayloadTypes(atComma.(ts := atComma.ts.tail), [ofX]);
    PayloadEnds(v, c);
  }

  lemma TwoPayloads(z: string, w: string, first: A.Type, rest: Stream, c: Cursor)
    requires c.bank == 1 && c.ts == More(Name(z), More(LESS, More(Name(w), More(RPAREN, rest))))
    ensures ParsePayloadTypes(c, [first])
      == Ok([first, A.PathType([z], [Named(w)])], c.(ts := More(RPAREN, rest), bank := 0))
  {
    OneArgReads(z, w, c);
    LastPayload(c, [first]);
    assert [first] + [A.PathType([z], [Named(w)])] == [first, A.PathType([z], [Named(w)])];
  }

  /** A surplus `>` that a `>` follows is dropped in silence.  For any names, `x<y>> >` is
      no type, and that is not reported. */
  lemma SilentRejection(x: string, y: string, rest: Stream, c: Cursor)
    requires c.bank == 0
    requires c.ts == More(Name(x), More(LESS, More(Name(y), More(PAIR, More(GREATER, rest)))))
    ensures ParseClosedType(c) == Fail(c.(ts := rest))
  {
    OneArgReads(x, y, c);
  }

  /** So an item can vanish without any diagnostic: `static a: x<y>> > = 1;` gives no item,
      for any names and any literal. */
  lemma StaticVanishes(a: string, x: string, y: string, n: string, end: Stream, c: Cursor)
    requires c.bank == 0 && end == More(Word(Eof, "", 0), End)
    requires c.ts == StaticWords(a, x, y, n, end)
    ensures ParseItems(c, false, []) == ([], c.(ts := end))
  {
    var c1 := c.(ts := c.ts.tail);
    var atX := c.(ts := c.ts.tail.tail.tail);
    var atEq := c.(ts := atX.ts.tail.tail.tail.tail.tail);
    SilentRejection(x, y, atEq.ts, atX);
    FieldFails(a, c1, atX, atEq);
    SkipsToEnd(n, end, atEq);
    assert ParseItem(c) == Fail(atEq);
  }

  function StaticWords(a: string, x: string, y: string, n: string, end: Stream): Stream {
    More(Word(Static, "static", 0), More(Name(a), More(Word(Colon, ":", 0), More(Name(x), More(LESS, More(Name(y),
      More(PAIR, More(GREATER, More(Word(Eq, "=", 0), More(Word(Integer, n, 0), More(Word(Semicolon, ";", 0), end)))))))))))
  }

  lemma FieldFails(a: string, c: Cursor, c1: Cursor, c2: Cursor)
    requires c.ts.More? && c.ts.head == Name(a) && c.ts.tail == More(Word(Colon, ":", 0), c1.ts) && c1 == c.(ts := c1.ts)
    requires ParseClosedType(c1) == Fail(c2)
    ensures ParseValueItem(c) == Fail(c2)
  {
  }

  lemma SkipsToEnd(n: string, end: Stream, c: Cursor)
    requires c.ts == More(Word(Eq, "=", 0), More(Word(Integer, n, 0), More(Word(Semicolon, ";", 0), end)))
    ensures Synchronize(c) == c.(ts := end)
  {
    var semicolon := c.(ts := c.ts.tail.tail);
    assert SkipToBoundary(semicolon, 0) == semicolon;
    assert SkipToBoundary(c.(ts := c.ts.tail), 0) == semicolon;
  }
}
