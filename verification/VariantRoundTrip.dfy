/** Reading back a printed enum variant, however its closing `>` words have been fused. */
module VariantRoundTrip {
  import opened Options
  import opened Tokens
  import opened Grammar
  import opened TypeSyntax
  import opened TypeRoundTrip
  import A = Ast

  function PrintVariant(v: A.EnumVariant, k: Stream): Stream {
    More(Name(v.name), if v.fields == [] then k else More(LPAREN, PrintTypes(v.fields, More(RPAREN, k))))
  }

  /** What follows a variant and cannot become part of it. */
  predicate EndsVariant(v: A.EnumVariant, k: Stream) {
    v.fields == [] ==> k.More? && k.head.kind != LParen
  }

  predicate IsVariant(v: A.EnumVariant) {
    forall t <- v.fields :: IsType(t)
  }

  lemma VariantPrintsMore(v: A.EnumVariant, k: Stream)
    ensures Length(k) <= Length(PrintVariant(v, k))
  {
    TypesPrintMore(v.fields, More(RPAREN, k));
  }

  lemma PayloadStep(c: Cursor, before: seq<A.Type>, t: A.Type, c1: Cursor)
    requires ParseType(c) == Ok(t, c1)
    ensures ParsePayloadTypes(c, before) ==
      if !c1.Check(Comma) then Ok(before + [t], c1)
      else if Advance(c1).Check(RParen) then Ok(before + [t], Advance(c1))
      else ParsePayloadTypes(Advance(c1), before + [t])
  {
  }

  lemma PayloadWrong(c: Cursor, before: seq<A.Type>, ts: seq<A.Type>)
    requires ts != []
    requires var r := ParseType(c); r.Fail? || r.value != ts[0]
    ensures var r := ParsePayloadTypes(c, before); r.Fail? || r.value != before + ts
  {
    var r := ParseType(c);
    if r.Ok? { Differ(before, r.value, ts, ParsePayloadTypes(c, before)); }
  }

  /** Payload types up to the closing parenthesis. */
  lemma {:induction false} PayloadReads(ts: seq<A.Type>, before: seq<A.Type>, k: Stream, c: Cursor, w: nat) returns (ok: bool, l: Left)
    requires ts != [] && forall u <- ts :: IsType(u)
    requires c.bank == 0 && w <= Length(k) && Fused(PrintTypes(ts, More(RPAREN, k)), c.ts, w)
    ensures Outcome(ParsePayloadTypes(c, before), before + ts, PrintTypes(ts, More(RPAREN, k)), c, More(RPAREN, k), w, ok, l)
    decreases ts
  {
    var close := More(RPAREN, k);
    TypesPrintMore(ts, close);
    ok, l := TypeReads(ts[0], AfterFirst(ts, close), c, w);
    Regroup(before, ts);
    if !ok {
      PlainAfterComma(ts[1..], k);
      PayloadWrong(c, before, ts);
    } else {
      PayloadStep(c, before, ts[0], At(c, l));
      if |ts| == 1 {
        Resume(l, RPAREN, k, c, w);
      } else {
        var c2 := NextPayload(ts, l, k, c, w);
        ok, l := PayloadReads(ts[1..], before + [ts[0]], k, c2, w);
      }
    }
  }

  /** Past the comma after a payload type. */
  lemma NextPayload(ts: seq<A.Type>, l: Left, k: Stream, c: Cursor, w: nat) returns (c2: Cursor)
    requires |ts| > 1 && (forall u <- ts :: IsType(u)) && w <= Length(k) && c.bank == 0
    requires Stops(l, AfterFirst(ts, More(RPAREN, k)), w)
    ensures At(c, l).Check(Comma) && c2 == Advance(At(c, l)) && c2 == c.(ts := c2.ts) && !c2.Check(RParen)
    ensures Fused(PrintTypes(ts[1..], More(RPAREN, k)), c2.ts, w)
    ensures HarmLeft(l, AfterFirst(ts, More(RPAREN, k)), w) == Harm(PrintTypes(ts[1..], More(RPAREN, k)), c2.ts, w)
  {
    var close := More(RPAREN, k);
    TypesPrintMore(ts[1..], close);
    Resume(l, COMMA, PrintTypes(ts[1..], close), c, w);
    c2 := Advance(At(c, l));
    TypeHead(ts[1], AfterFirst(ts[1..], close));
    Look(PrintTypes(ts[1..], close), c2.ts, w);
  }

  /** Past the name and the opening parenthesis. */
  lemma VariantStarts(v: A.EnumVariant, rest: Stream, c: Cursor) returns (c2: Cursor)
    requires IsVariant(v) && v.fields != [] && Fused(PrintVariant(v, rest), c.ts, Length(rest))
    ensures c2 == c.(ts := c2.ts) && Fused(PrintTypes(v.fields, More(RPAREN, rest)), c2.ts, Length(rest))
    ensures Harm(PrintVariant(v, rest), c.ts, Length(rest)) == Harm(PrintTypes(v.fields, More(RPAREN, rest)), c2.ts, Length(rest))
    ensures !c2.Check(RParen)
    ensures ParseVariant(c) == match ParsePayload(c2) case Ok(fields, c3) => Ok(A.EnumVariant(v.name, fields), c3) case Fail(c3) => Fail(c3)
  {
    var inside := PrintTypes(v.fields, More(RPAREN, rest));
    TypesPrintMore(v.fields, More(RPAREN, rest));
    Step(Name(v.name), More(LPAREN, inside), c, Length(rest));
    Step(LPAREN, inside, Advance(c), Length(rest));
    c2 := Advance(Advance(c));
    PayloadFollows(v.fields, rest, c2, Length(rest));
    VariantStep(v.name, c);
  }

  lemma PayloadFollows(fields: seq<A.Type>, k: Stream, c: Cursor, w: nat)
    requires fields != [] && IsType(fields[0]) && Fused(PrintTypes(fields, More(RPAREN, k)), c.ts, w)
    ensures !c.Check(RParen)
  {
    TypeHead(fields[0], AfterFirst(fields, More(RPAREN, k)));
    Look(PrintTypes(fields, More(RPAREN, k)), c.ts, w);
  }

  lemma VariantStep(name: string, c: Cursor)
    requires c.Peek() == Ident && c.ts.head.spelling == name && Advance(c).Check(LParen)
    ensures ParseVariant(c) ==
      match ParsePayload(Advance(Advance(c))) case Ok(fields, c3) => Ok(A.EnumVariant(name, fields), c3) case Fail(c3) => Fail(c3)
  {
  }

  /** Payload types with their closing parenthesis. */
  lemma PayloadCloses(fields: seq<A.Type>, c: Cursor, rest: Stream)
    requires fields != [] && (forall t <- fields :: IsType(t)) && c.bank == 0 && !c.Check(RParen)
    requires Fused(PrintTypes(fields, More(RPAREN, rest)), c.ts, Length(rest))
    ensures ParsePayload(c) == Ok(fields, c.(ts := rest))
      <==> !Harm(PrintTypes(fields, More(RPAREN, rest)), c.ts, Length(rest)).comma
  {
    var ok, l := PayloadReads(fields, [], rest, c, Length(rest));
    assert [] + fields == fields;
    if ok {
      Resume(l, RPAREN, rest, c, Length(rest));
    }
  }

  /** A printed variant whose closing `>` words have been fused in any way reads back as the
      variant, with an empty bank and up to what comes after it, exactly if no pair stands
      right before a comma. */
  lemma FusedVariantReads(v: A.EnumVariant, c: Cursor, rest: Stream)
    requires IsVariant(v) && EndsVariant(v, rest)
    requires c.bank == 0 && Fused(PrintVariant(v, rest), c.ts, Length(rest))
    ensures ParseVariant(c) == Ok(v, c.(ts := rest)) <==> !Harm(PrintVariant(v, rest), c.ts, Length(rest)).comma
  {
    if v.fields == [] {
      Step(Name(v.name), rest, c, Length(rest));
    } else {
      var c2 := VariantStarts(v, rest, c);
      PayloadCloses(v.fields, c2, rest);
    }
  }
}
