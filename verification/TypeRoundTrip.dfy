/** Reading back a printed type, however its closing `>` words have been fused. */
module TypeRoundTrip {
  import opened Options
  import opened Tokens
  import opened Grammar
  import opened TypeSyntax
  import A = Ast

  /** Where a rule stops: the words left, with the pairs among them still fused, and
      whether half of a `>>` is banked. */
  datatype Left = Left(bank: nat, ts: Stream)

  function At(c: Cursor, l: Left): Cursor {
    c.(ts := l.ts, bank := l.bank)
  }

  /** What is left is a fusing of `k`; a banked half stands for its first `>`. */
  ghost predicate Stops(l: Left, k: Stream, w: nat) {
    if l.bank == 0 then Fused(k, l.ts, w)
    else l.bank == 1 && k.More? && k.head == GREATER && Fused(k.tail, l.ts, w)
  }

  /** The harm done by the pairs in what is left, with the one that is half used. */
  ghost function HarmLeft(l: Left, k: Stream, w: nat): Damage
    requires Stops(l, k, w)
  {
    if l.bank == 0 then Harm(k, l.ts, w) else PairHarm(k.tail, l.ts, w)
  }

  /** After a comma that heads `k`, no list of type arguments may end. */
  predicate Plain(k: Stream) {
    CommaNext(k) ==> k.tail.More? && k.tail.head.kind !in {Greater, GreaterGreater, Eof}
  }

  /** The rule does not read `t` and stop at `k`. */
  ghost predicate Misreads<T>(r: Parsed<T>, t: T, k: Stream) {
    r.Ok? && r.value == t ==> !Plain(k) && r.c.Left() < Length(k)
  }

  /** The outcome of a rule for `t` on a fusing `s` of the words `p` that lead to `k`:
      either it reads `t` and stops at `k`, or a pair before a comma has put it off. */
  ghost predicate Outcome<T>(r: Parsed<T>, t: T, p: Stream, c: Cursor, k: Stream, w: nat, ok: bool, l: Left) {
    && Fused(p, c.ts, w)
    && if ok then r == Ok(t, At(c, l)) && Stops(l, k, w) && HarmLeft(l, k, w) == Harm(p, c.ts, w)
       else Harm(p, c.ts, w).comma && Misreads(r, t, k)
  }

  /** What follows a type and cannot become part of it: only a type that ends in a bare
      path can go on, with `<` or `::`. */
  predicate EndsType(t: A.Type, k: Stream) {
    IsDelimited(t) || (k.More? && k.head.kind != Less && k.head.kind != ColonColon)
  }

  lemma Step(x: Word, xs: Stream, c: Cursor, w: nat)
    requires Fused(More(x, xs), c.ts, w) && x != GREATER && x.reserved == 0 && x.kind != Eof && w <= Length(xs)
    ensures c.ts.More? && c.ts.head == x
    ensures Advance(c) == c.(ts := c.ts.tail) && Fused(xs, c.ts.tail, w)
    ensures Harm(More(x, xs), c.ts, w) == Harm(xs, c.ts.tail, w)
  {
  }

  /** A look at the next word, printed or fused. */
  lemma Look(k: Stream, s: Stream, w: nat)
    requires Fused(k, s, w) && k.More?
    ensures s.More?
    ensures k.head != GREATER ==> s.head == k.head
    ensures k.head == GREATER ==> s.head == GREATER || s.head == PAIR
  {
  }

  lemma Regroup<T>(before: seq<T>, xs: seq<T>)
    requires xs != []
    ensures before + [xs[0]] + xs[1..] == before + xs
    ensures |xs| == 1 ==> before + [xs[0]] == before + xs
  {
  }

  lemma {:induction false} PathReads(path: A.Path, before: A.Path, k: Stream, c: Cursor, w: nat) returns (l: Left)
    requires path != [] && c.bank == 0 && w <= Length(k) && Fused(PrintPath(path, k), c.ts, w)
    requires k.More? && k.head.kind != ColonColon
    ensures l.bank == 0 && Outcome(ParsePath(c, before), before + path, PrintPath(path, k), c, k, w, true, l)
  {
    var word := SegmentWord(path[0]);
    Regroup(before, path);
    if |path| == 1 {
      Step(word, k, c, w);
      l := Left(0, c.ts.tail);
      Look(k, l.ts, w);
    } else {
      var tail := PrintPath(path[1..], k);
      PathPrintsMore(path[1..], k);
      Step(word, More(COLONS, tail), c, w);
      Step(COLONS, tail, Advance(c), w);
      Look(tail, Advance(Advance(c)).ts, w);
      l := PathReads(path[1..], before + [path[0]], k, Advance(Advance(c)), w);
    }
  }

  /** A type, its words fused in any way. */
  lemma {:induction false} TypeReads(t: A.Type, k: Stream, c: Cursor, w: nat) returns (ok: bool, l: Left)
    requires IsType(t) && c.bank == 0 && w <= Length(k) && Fused(PrintType(t, k), c.ts, w) && EndsType(t, k)
    ensures Outcome(ParseType(c), t, PrintType(t, k), c, k, w, ok, l)
    decreases t, 2
  {
    match t
    case RefType(isMut, inner) => ok, l := RefReads(isMut, inner, k, c, w, t);
    case TupleType(elements) => ok, l := TupleReads(elements, k, c, w, t);
    case PathType(path, args) =>
      PathTypeHead(t, k, c, w);
      ok, l := PathTypeReads(path, args, k, c, w, t);
    case _ =>
      ok := true;
      l := SimpleReads(t, k, c, w);
  }

  lemma PathTypeHead(t: A.Type, k: Stream, c: Cursor, w: nat)
    requires t.PathType? && IsType(t) && Fused(PrintType(t, k), c.ts, w)
    ensures ParseType(c) == ParsePathType(c)
  {
    Look(PrintType(t, k), c.ts, w);
    PathFollows(c);
  }

  lemma PathFollows(c: Cursor)
    requires IsPathSegment(c.Peek())
    ensures ParseType(c) == ParsePathType(c)
  {
  }

  lemma SimpleReads(t: A.Type, k: Stream, c: Cursor, w: nat) returns (l: Left)
    requires t.PrimitiveType? || t.NeverType? || t.StrType? || t.UnitType?
    requires c.bank == 0 && w <= Length(k) && Fused(PrintType(t, k), c.ts, w)
    ensures Outcome(ParseType(c), t, PrintType(t, k), c, k, w, true, l)
  {
    if t.UnitType? {
      Step(LPAREN, More(RPAREN, k), c, w);
      Step(RPAREN, k, Advance(c), w);
      l := Left(0, c.ts.tail.tail);
    } else {
      var word := if t.PrimitiveType? then PrimitiveWord(t.primitive) else if t.NeverType? then BANG else STR;
      if t.PrimitiveType? {
        PrimitiveReads(t.primitive);
      }
      Step(word, k, c, w);
      WordReads(word, c);
      l := Left(0, c.ts.tail);
    }
  }

  lemma PrimitiveReads(p: A.PrimitiveKind)
    ensures var word := PrimitiveWord(p);
      PrimitiveOf(word.kind) == Some(p) && word.reserved == 0 && word != GREATER && word.kind != Eof
  {
  }

  lemma WordReads(word: Word, c: Cursor)
    requires c.ts.More? && c.ts.head == word && (word == BANG || word == STR || PrimitiveOf(word.kind).Some?)
    ensures ParseType(c) == Ok(if word == BANG then A.NeverType else if word == STR then A.StrType
                               else A.PrimitiveType(PrimitiveOf(word.kind).value), Advance(c))
  {
  }

  lemma {:induction false} RefReads(isMut: bool, inner: A.Type, k: Stream, c: Cursor, w: nat, t: A.Type) returns (ok: bool, l: Left)
    requires t == A.RefType(isMut, inner)
    requires IsType(t) && c.bank == 0 && w <= Length(k) && Fused(PrintType(t, k), c.ts, w) && EndsType(t, k)
    ensures Outcome(ParseType(c), t, PrintType(t, k), c, k, w, ok, l)
    decreases t, 1
  {
    var c1 := RefStarts(isMut, inner, k, c, w);
    TypePrintsMore(inner, k);
    ok, l := TypeReads(inner, k, c1, w);
    RefParses(c, isMut, c1);
  }

  /** Past the words that make a reference. */
  lemma RefStarts(isMut: bool, inner: A.Type, k: Stream, c: Cursor, w: nat) returns (c1: Cursor)
    requires IsType(inner) && w <= Length(k) && Fused(PrintType(A.RefType(isMut, inner), k), c.ts, w)
    ensures c.Peek() == Amp && Advance(c).Check(Mut) == isMut
    ensures c1 == (if isMut then Advance(Advance(c)) else Advance(c)) && c1 == c.(ts := c1.ts)
    ensures Fused(PrintType(inner, k), c1.ts, w)
    ensures Harm(PrintType(A.RefType(isMut, inner), k), c.ts, w) == Harm(PrintType(inner, k), c1.ts, w)
  {
    var tail := PrintType(inner, k);
    TypeHead(inner, k);
    TypePrintsMore(inner, k);
    if isMut {
      Step(AMP, More(MUT, tail), c, w);
      Step(MUT, tail, Advance(c), w);
      c1 := Advance(Advance(c));
    } else {
      Step(AMP, tail, c, w);
      Look(tail, Advance(c).ts, w);
      c1 := Advance(c);
    }
  }

  /** The steps of the reference rule. */
  lemma RefParses(c: Cursor, isMut: bool, c1: Cursor)
    requires c.Peek() == Amp && Advance(c).Check(Mut) == isMut
    requires c1 == if isMut then Advance(Advance(c)) else Advance(c)
    ensures var r := ParseType(c1);
      ParseType(c) == if r.Ok? then Ok(A.RefType(isMut, r.value), r.c) else Fail(r.c)
  {
  }

  /** After a type whose continuation starts with a word that is no `>`, the bank is empty
      and that word comes next. */
  lemma Resume(l: Left, x: Word, xs: Stream, c: Cursor, w: nat)
    requires Stops(l, More(x, xs), w) && w <= Length(xs) && x != GREATER && x.reserved == 0 && x.kind != Eof
    ensures l.bank == 0 && l.ts.More? && l.ts.head == x
    ensures Advance(At(c, l)) == c.(ts := l.ts.tail, bank := 0) && Fused(xs, l.ts.tail, w)
    ensures HarmLeft(l, More(x, xs), w) == Harm(xs, l.ts.tail, w)
  {
  }

  // ----- Tuples -----

  lemma {:induction false} TupleReads(elements: seq<A.Type>, k: Stream, c: Cursor, w: nat, t: A.Type) returns (ok: bool, l: Left)
    requires t == A.TupleType(elements)
    requires IsType(t) && c.bank == 0 && w <= Length(k) && Fused(PrintType(t, k), c.ts, w)
    ensures Outcome(ParseType(c), t, PrintType(t, k), c, k, w, ok, l)
    decreases t, 1
  {
    var later := PrintTypes(elements[1..], More(RPAREN, k));
    TypesPrintMore(elements[1..], More(RPAREN, k));
    TupleStarts(elements, k, c, w);
    ok, l := TypeReads(elements[0], More(COMMA, later), Advance(c), w);
    if ok {
      ok, l := TupleGoesOn(elements, k, c, l, w);
    } else {
      PlainAfterComma(elements[1..], k);
      TupleStartsWrong(c, elements, k, w);
    }
  }

  /** From the comma after the first element. */
  lemma {:induction false} TupleGoesOn(elements: seq<A.Type>, k: Stream, c: Cursor, l1: Left, w: nat) returns (ok: bool, l: Left)
    requires IsType(A.TupleType(elements)) && c.bank == 0 && w <= Length(k)
    requires c.Peek() == LParen && !Advance(c).Check(RParen) && Advance(c) == c.(ts := c.ts.tail)
    requires ParseType(Advance(c)) == Ok(elements[0], At(Advance(c), l1))
    requires Stops(l1, More(COMMA, PrintTypes(elements[1..], More(RPAREN, k))), w)
    ensures var harm := HarmLeft(l1, More(COMMA, PrintTypes(elements[1..], More(RPAREN, k))), w);
      if ok then ParseType(c) == Ok(A.TupleType(elements), At(c, l)) && Stops(l, k, w) && HarmLeft(l, k, w) == harm
      else harm.comma && Misreads(ParseType(c), A.TupleType(elements), k)
    decreases elements, 0
  {
    var later := PrintTypes(elements[1..], More(RPAREN, k));
    TypesPrintMore(elements[1..], More(RPAREN, k));
    Resume(l1, COMMA, later, c, w);
    ok, l := ElementsRead(elements[1..], [elements[0]], k, Advance(At(c, l1)), w);
    assert [elements[0]] + elements[1..] == elements;
    if ok {
      var l2 := l;
      Step(RPAREN, k, At(c, l2), w);
      l := Left(0, l2.ts.tail);
      TupleParses(c, elements, At(c, l1), At(c, l2));
    } else {
      TupleEndsWrong(c, elements, At(c, l1));
    }
  }

  /** Past the opening parenthesis. */
  lemma TupleStarts(elements: seq<A.Type>, k: Stream, c: Cursor, w: nat)
    requires IsType(A.TupleType(elements)) && w <= Length(k)
    requires Fused(PrintType(A.TupleType(elements), k), c.ts, w)
    ensures c.Peek() == LParen && !Advance(c).Check(RParen) && Advance(c) == c.(ts := c.ts.tail)
    ensures Fused(PrintType(elements[0], More(COMMA, PrintTypes(elements[1..], More(RPAREN, k)))), c.ts.tail, w)
    ensures Harm(PrintType(A.TupleType(elements), k), c.ts, w)
      == Harm(PrintType(elements[0], More(COMMA, PrintTypes(elements[1..], More(RPAREN, k)))), c.ts.tail, w)
  {
    var after := More(COMMA, PrintTypes(elements[1..], More(RPAREN, k)));
    var tail := PrintType(elements[0], after);
    TuplePrints(elements, k);
    TypesPrintMore(elements[1..], More(RPAREN, k));
    TypePrintsMore(elements[0], after);
    Step(LPAREN, tail, c, w);
    TypeHead(elements[0], after);
    Look(tail, c.ts.tail, w);
  }

  /** A one-element tuple is printed with a trailing comma, as if more were to come. */
  lemma TuplePrints(elements: seq<A.Type>, k: Stream)
    requires elements != []
    ensures PrintType(A.TupleType(elements), k) ==
      More(LPAREN, PrintType(elements[0], More(COMMA, PrintTypes(elements[1..], More(RPAREN, k)))))
  {
    assert |elements| == 1 ==> PrintTypes(elements[1..], More(RPAREN, k)) == More(RPAREN, k);
    assert |elements| != 1 ==> AfterFirst(elements, More(RPAREN, k)) == More(COMMA, PrintTypes(elements[1..], More(RPAREN, k)));
  }

  lemma PlainAfterComma(ts: seq<A.Type>, k: Stream)
    requires forall u <- ts :: IsType(u)
    ensures Plain(More(COMMA, PrintTypes(ts, More(RPAREN, k))))
    ensures ts != [] ==> Plain(More(COMMA, PrintTypes(ts, More(GREATER, k))))
  {
    if ts != [] {
      TypeHead(ts[0], AfterFirst(ts, More(RPAREN, k)));
      TypeHead(ts[0], AfterFirst(ts, More(GREATER, k)));
    }
  }

  /** The steps of the tuple rule. */
  lemma TupleParses(c: Cursor, elements: seq<A.Type>, c2: Cursor, c3: Cursor)
    requires c.Peek() == LParen && elements != []
    requires !Advance(c).Check(RParen)
    requires ParseType(Advance(c)) == Ok(elements[0], c2) && c2.Check(Comma)
    requires ParseTupleTypes(Advance(c2), [elements[0]]) == Ok(elements, c3) && c3.Check(RParen)
    ensures ParseType(c) == Ok(A.TupleType(elements), Advance(c3))
  {
  }

  lemma TupleEndsWrong(c: Cursor, elements: seq<A.Type>, c2: Cursor)
    requires c.Peek() == LParen && elements != []
    requires !Advance(c).Check(RParen)
    requires ParseType(Advance(c)) == Ok(elements[0], c2) && c2.Check(Comma)
    requires var r := ParseTupleTypes(Advance(c2), [elements[0]]); r.Fail? || r.value != elements
    ensures var r := ParseType(c); r.Fail? || r.value != A.TupleType(elements)
  {
  }

  /** With a wrong first element the rule does not give the tuple: not by the elements it
      collects, and not by a parenthesized type, which has fewer tuples at its start. */
  lemma TupleStartsWrong(c: Cursor, elements: seq<A.Type>, k: Stream, w: nat)
    requires elements != [] && IsType(A.TupleType(elements))
    requires Fused(PrintType(A.TupleType(elements), k), c.ts, w)
    requires c.Peek() == LParen && !Advance(c).Check(RParen)
    requires var r := ParseType(Advance(c)); r.Fail? || r.value != elements[0]
    ensures var r := ParseType(c); r.Fail? || r.value != A.TupleType(elements)
  {
    var t := A.TupleType(elements);
    var r := ParseType(Advance(c));
    PrintedParens(t, k);
    FusedParens(PrintType(t, k), c.ts, w);
    ReadParens(Advance(c));
    assert r.Ok? ==> r.value != t;
  }

  /** Parentheses at the start of the words. */
  function Parens(s: Stream): nat {
    if s.More? && s.head.kind == LParen then 1 + Parens(s.tail) else 0
  }

  /** Parentheses at the start of the printed type. */
  function LeadingParens(t: A.Type): nat {
    match t
    case UnitType => 1
    case TupleType(elements) => 1 + if elements == [] then 0 else LeadingParens(elements[0])
    case _ => 0
  }

  lemma {:induction false} PrintedParens(t: A.Type, k: Stream)
    requires IsType(t)
    ensures Parens(PrintType(t, k)) == LeadingParens(t)
  {
    match t
    case TupleType(elements) =>
      TuplePrints(elements, k);
      PrintedParens(elements[0], More(COMMA, PrintTypes(elements[1..], More(RPAREN, k))));
    case UnitType =>
    case _ => NoParens(t, k);
  }

  lemma NoParens(t: A.Type, k: Stream)
    requires IsType(t) && !t.TupleType? && !t.UnitType?
    ensures PrintType(t, k).More? && PrintType(t, k).head.kind != LParen
  {
  }

  lemma {:induction false} FusedParens(p: Stream, s: Stream, w: nat)
    requires Fused(p, s, w)
    ensures Parens(s) == Parens(p)
  {
    if Length(p) > w && p.head.kind == LParen { FusedParens(p.tail, s.tail, w); }
  }

  lemma {:induction false} ReadParens(c: Cursor)
    ensures ParseType(c).Ok? ==> LeadingParens(ParseType(c).value) <= Parens(c.ts)
    decreases c.Left()
  {
    if c.Peek() == LParen { ReadParens(Advance(c)); }
  }

  /** The elements of a tuple after the first comma, up to its closing parenthesis. */
  lemma {:induction false} ElementsRead(ts: seq<A.Type>, before: seq<A.Type>, k: Stream, c: Cursor, w: nat) returns (ok: bool, l: Left)
    requires forall u <- ts :: IsType(u)
    requires c.bank == 0 && w <= Length(k) && Fused(PrintTypes(ts, More(RPAREN, k)), c.ts, w)
    ensures Outcome(ParseTupleTypes(c, before), before + ts, PrintTypes(ts, More(RPAREN, k)), c, More(RPAREN, k), w, ok, l)
    decreases ts, 0
  {
    var close := More(RPAREN, k);
    if ts == [] {
      Look(close, c.ts, w);
      assert before + ts == before;
      ok, l := true, Left(0, c.ts);
    } else {
      var more := AfterFirst(ts, close);
      TypeHead(ts[0], more);
      TypesPrintMore(ts, close);
      Look(PrintType(ts[0], more), c.ts, w);
      ok, l := TypeReads(ts[0], more, c, w);
      Regroup(before, ts);
      if !ok {
        PlainAfterComma(ts[1..], k);
        ElementWrong(c, before, ts);
      } else if |ts| == 1 {
        Resume(l, RPAREN, k, c, w);
      } else {
        TypesPrintMore(ts[1..], close);
        Resume(l, COMMA, PrintTypes(ts[1..], close), c, w);
        var l1 := l;
        ok, l := ElementsRead(ts[1..], before + [ts[0]], k, Advance(At(c, l1)), w);
      }
    }
  }

  lemma ElementWrong(c: Cursor, before: seq<A.Type>, ts: seq<A.Type>)
    requires ts != [] && !c.Check(RParen) && !c.AtEnd()
    requires var r := ParseType(c); r.Fail? || r.value != ts[0]
    ensures var r := ParseTupleTypes(c, before); r.Fail? || r.value != before + ts
  {
    var r := ParseType(c);
    if r.Ok? { Differ(before, r.value, ts, ParseTupleTypes(c, before)); }
  }

  /** A list that goes on from `before` with another element than `ts` has is another list. */
  lemma Differ(before: seq<A.Type>, x: A.Type, ts: seq<A.Type>, r: Parsed<seq<A.Type>>)
    requires ts != [] && x != ts[0]
    ensures r.Ok? && before + [x] <= r.value ==> r.value != before + ts
  {
    if r.Ok? && before + [x] <= r.value {
      assert r.value[|before|] == x && (before + ts)[|before|] == ts[0];
    }
  }

  // ----- Type arguments -----

  lemma {:induction false} PathTypeReads(path: A.Path, args: seq<A.Type>, k: Stream, c: Cursor, w: nat, t: A.Type) returns (ok: bool, l: Left)
    requires t == A.PathType(path, args)
    requires IsType(t) && c.bank == 0 && w <= Length(k) && Fused(PrintType(t, k), c.ts, w) && EndsType(t, k)
    ensures Outcome(ParsePathType(c), t, PrintType(t, k), c, k, w, ok, l)
    decreases t, 1
  {
    if args == [] {
      ok := true;
      assert [] + path == path;
      l := PathReads(path, [], k, c, w);
      Look(k, l.ts, w);
    } else {
      var c1 := ArgsStart(path, args, k, c, w);
      ok, l := ArgsRead(args, [], k, Advance(c1), w);
      assert [] + args == args;
      PathTypeParses(c, path, c1);
      if ok {
        l := GtReads(k, l, c, w);
      }
    }
  }

  /** Up to the `<`. */
  lemma ArgsStart(path: A.Path, args: seq<A.Type>, k: Stream, c: Cursor, w: nat) returns (c1: Cursor)
    requires IsType(A.PathType(path, args)) && args != [] && c.bank == 0 && w <= Length(k)
    requires Fused(PrintType(A.PathType(path, args), k), c.ts, w)
    ensures ParsePath(c, []) == Ok(path, c1) && c1.Check(Less) && !ClosesArgs(Advance(c1))
    ensures Advance(c1) == c.(ts := Advance(c1).ts) && Fused(PrintTypes(args, More(GREATER, k)), Advance(c1).ts, w)
    ensures Harm(PrintType(A.PathType(path, args), k), c.ts, w) == Harm(PrintTypes(args, More(GREATER, k)), Advance(c1).ts, w)
  {
    var inside := PrintTypes(args, More(GREATER, k));
    assert [] + path == path;
    TypesPrintMore(args, More(GREATER, k));
    var l := PathReads(path, [], More(LESS, inside), c, w);
    c1 := At(c, l);
    Step(LESS, inside, c1, w);
    ArgsFollow(args, k, Advance(c1), w);
  }

  /** The list of arguments is not over before it begins. */
  lemma ArgsFollow(args: seq<A.Type>, k: Stream, c: Cursor, w: nat)
    requires args != [] && IsType(args[0]) && Fused(PrintTypes(args, More(GREATER, k)), c.ts, w)
    ensures !ClosesArgs(c)
  {
    TypeHead(args[0], AfterFirst(args, More(GREATER, k)));
    Look(PrintTypes(args, More(GREATER, k)), c.ts, w);
  }

  /** The steps of the rule for a path with arguments. */
  lemma PathTypeParses(c: Cursor, path: A.Path, c1: Cursor)
    requires ParsePath(c, []) == Ok(path, c1) && c1.Check(Less) && !ClosesArgs(Advance(c1))
    ensures var r := ParseTypeArgs(Advance(c1), []);
      ParsePathType(c) == if r.Ok? then CloseArgs(path, r.value, r.c) else Fail(r.c)
  {
  }

  /** Type arguments up to the `>` that closes them, which may be in the bank.  If it is
      there and a comma is next, the list does not stop. */
  lemma {:induction false} ArgsRead(ts: seq<A.Type>, before: seq<A.Type>, k: Stream, c: Cursor, w: nat) returns (ok: bool, l: Left)
    requires ts != [] && forall u <- ts :: IsType(u)
    requires c.bank == 0 && w <= Length(k) && Fused(PrintTypes(ts, More(GREATER, k)), c.ts, w)
    ensures ok ==> Outcome(ParseTypeArgs(c, before), before + ts, PrintTypes(ts, More(GREATER, k)), c, More(GREATER, k), w, ok, l)
    ensures ok && l.bank == 1 ==> !CommaNext(l.ts)
    ensures !ok ==> Outcome(ParseTypeArgs(c, before), before + ts, PrintTypes(ts, More(GREATER, k)), c, k, w, ok, l)
    decreases ts, 0
  {
    var close := More(GREATER, k);
    TypesPrintMore(ts, close);
    ok, l := TypeReads(ts[0], AfterFirst(ts, close), c, w);
    Regroup(before, ts);
    if !ok {
      PlainAfterComma(ts[1..], k);
      ArgWrong(c, before, ts);
    } else if |ts| == 1 {
      if l.bank == 1 && CommaNext(l.ts) {
        ok := false;
        ArgsGoOn(c, before, ts[0], l, k, w);
      } else {
        LastArg(c, before, ts[0], l, k, w);
      }
    } else {
      var c2 := NextArg(c, before, ts, l, k, w);
      ok, l := ArgsRead(ts[1..], before + [ts[0]], k, c2, w);
    }
  }

  /** Past the comma after an argument. */
  lemma NextArg(c: Cursor, before: seq<A.Type>, ts: seq<A.Type>, l: Left, k: Stream, w: nat) returns (c2: Cursor)
    requires |ts| > 1 && (forall u <- ts :: IsType(u)) && c.bank == 0 && w <= Length(k)
    requires ParseType(c) == Ok(ts[0], At(c, l)) && Stops(l, AfterFirst(ts, More(GREATER, k)), w)
    ensures c2 == c.(ts := c2.ts) && Fused(PrintTypes(ts[1..], More(GREATER, k)), c2.ts, w)
    ensures HarmLeft(l, AfterFirst(ts, More(GREATER, k)), w) == Harm(PrintTypes(ts[1..], More(GREATER, k)), c2.ts, w)
    ensures ParseTypeArgs(c, before) == ParseTypeArgs(c2, before + [ts[0]])
  {
    TypesPrintMore(ts[1..], More(GREATER, k));
    Resume(l, COMMA, PrintTypes(ts[1..], More(GREATER, k)), c, w);
    c2 := Advance(At(c, l));
    ArgsFollow(ts[1..], k, c2, w);
    ArgsStep(c, before, ts[0], At(c, l));
  }

  /** The steps of the argument rule past a comma. */
  lemma ArgsStep(c: Cursor, before: seq<A.Type>, t: A.Type, c1: Cursor)
    requires ParseType(c) == Ok(t, c1) && c1.Check(Comma) && !ClosesArgs(Advance(c1))
    ensures ParseTypeArgs(c, before) == ParseTypeArgs(Advance(c1), before + [t])
  {
  }

  /** No comma is next after the last argument. */
  lemma LastArg(c: Cursor, before: seq<A.Type>, t: A.Type, l: Left, k: Stream, w: nat)
    requires ParseType(c) == Ok(t, At(c, l)) && Stops(l, More(GREATER, k), w)
    requires l.bank == 1 ==> !CommaNext(l.ts)
    ensures ParseTypeArgs(c, before) == Ok(before + [t], At(c, l))
  {
    if l.bank == 0 { Look(More(GREATER, k), l.ts, w); }
  }

  lemma ArgWrong(c: Cursor, before: seq<A.Type>, ts: seq<A.Type>)
    requires ts != []
    requires var r := ParseType(c); r.Fail? || r.value != ts[0]
    ensures var r := ParseTypeArgs(c, before); r.Fail? || r.value != before + ts
  {
    var r := ParseType(c);
    if r.Ok? { Differ(before, r.value, ts, ParseTypeArgs(c, before)); }
  }

  /** With a banked `>` and a comma next, the list takes the comma as its own. */
  lemma ArgsGoOn(c: Cursor, before: seq<A.Type>, t: A.Type, l: Left, k: Stream, w: nat)
    requires ParseType(c) == Ok(t, At(c, l)) && CommaNext(l.ts) && Fused(k, l.ts, w) && w <= Length(k)
    ensures Misreads(ParseTypeArgs(c, before), before + [t], k)
  {
    FusedIsShorter(k, l.ts, w);
    var c2 := Advance(At(c, l));
    if ClosesArgs(c2) && Plain(k) {
      Look(k.tail, l.ts.tail, w);
      assert false;
    }
  }

  /** The closing `>` itself. */
  lemma GtReads(k: Stream, l: Left, c: Cursor, w: nat) returns (l': Left)
    requires Stops(l, More(GREATER, k), w) && w <= Length(k)
    requires l.bank == 1 ==> !CommaNext(l.ts)
    ensures ConsumeGt(At(c, l)) == Ok((), At(c, l'))
    ensures Stops(l', k, w) && HarmLeft(l', k, w) == HarmLeft(l, More(GREATER, k), w)
  {
    if l.bank == 1 {
      l' := Left(0, l.ts);
    } else if l.ts.head == GREATER {
      l' := Left(0, l.ts.tail);
    } else {
      l' := Left(1, l.ts.tail);
    }
  }

  // ----- Whole types -----

  /** The harm done to a type by fusing its closing `>` words and those after them. */
  ghost function TypeHarm(t: A.Type, rest: Stream, s: Stream): Damage
    requires Fused(PrintType(t, rest), s, Length(rest))
  {
    Harm(PrintType(t, rest), s, Length(rest))
  }

  /** A printed type whose closing `>` words have been fused in any way reads back as the
      type, with an empty bank and up to what comes after it, exactly if no pair stands
      right before a comma and none takes a `>` from after the type. */
  lemma FusedTypeReads(t: A.Type, c: Cursor, rest: Stream)
    requires IsType(t) && EndsType(t, rest)
    requires c.bank == 0 && Fused(PrintType(t, rest), c.ts, Length(rest))
    ensures ParseClosedType(c) == Ok(t, c.(ts := rest)) <==> TypeHarm(t, rest, c.ts) == INTACT
  {
    var ok, l := TypeReads(t, rest, c, Length(rest));
    ClosedStep(c);
    if ok {
      AtTheEnd(l, rest);
    }
  }

  lemma ClosedStep(c: Cursor)
    ensures var r := ParseType(c);
      if r.Ok? && r.c.bank == 0 then ParseClosedType(c) == r else ParseClosedType(c).Fail?
  {
  }

  lemma AtTheEnd(l: Left, rest: Stream)
    requires Stops(l, rest, Length(rest))
    ensures l.bank == 0 ==> l.ts == rest && HarmLeft(l, rest, Length(rest)) == INTACT
    ensures l.bank != 0 ==> l.ts == rest.tail && HarmLeft(l, rest, Length(rest)).across
  {
    if l.bank != 0 {
      assert Length(rest.tail) < Length(rest);
      assert Harm(rest.tail, l.ts, Length(rest)) == Damage(false, true);
    }
  }

  /** A half left over at the end of the type makes the rule fail.  A `>` that is next is
      consumed with it; anything else is reported. */
  lemma DanglingHalfIsRejected(t: A.Type, c: Cursor, rest: Stream)
    requires IsType(t) && EndsType(t, rest)
    requires c.bank == 0 && Fused(PrintType(t, rest), c.ts, Length(rest))
    requires TypeHarm(t, rest, c.ts) == Damage(false, true)
    ensures rest.More? && rest.head == GREATER
    ensures var c1 := c.(ts := rest.tail);
      ParseClosedType(c) == Fail(if c1.Check(Greater) then Advance(c1) else c1.Report())
  {
    var ok, l := TypeReads(t, rest, c, Length(rest));
    AtTheEnd(l, rest);
  }

  /** The words as printed read back as the type, with no diagnostics. */
  lemma PrintedTypeReads(t: A.Type, c: Cursor, rest: Stream)
    requires IsType(t) && EndsType(t, rest)
    requires c.ts == PrintType(t, rest) && c.bank == 0
    ensures ParseClosedType(c) == Ok(t, c.(ts := rest))
  {
    TypePrintsMore(t, rest);
    UnfusedIsIntact(c.ts, Length(rest));
    FusedTypeReads(t, c, rest);
  }

  lemma PrintedPathReads(path: A.Path, c: Cursor, rest: Stream)
    requires path != [] && c.ts == PrintPath(path, rest) && c.bank == 0
    requires rest.More? && rest.head.kind != ColonColon
    ensures ParsePath(c, []) == Ok(path, c.(ts := rest))
  {
    PathPrintsMore(path, rest);
    UnfusedIsIntact(c.ts, Length(rest));
    assert [] + path == path;
    var l := PathReads(path, [], rest, c, Length(rest));
  }

  function Name(name: string): Word { Word(Ident, name, 0) }

  function Named(name: string): A.Type { A.PathType([name], []) }

  lemma NameReads(name: string, c: Cursor)
    requires c.ts.More? && c.ts.head == Name(name) && c.ts.tail.More?
    requires c.ts.tail.head.kind != ColonColon && c.ts.tail.head.kind != Less
    ensures ParseType(c) == Ok(Named(name), c.(ts := c.ts.tail))
  {
    assert [] + [name] == [name];
    assert ParsePath(c, []) == Ok([name], c.(ts := c.ts.tail));
  }

  lemma NameWithArgsReads(name: string, c: Cursor, args: seq<A.Type>, c1: Cursor)
    requires c.ts.More? && c.ts.head == Name(name) && c.ts.tail.More? && c.ts.tail.head == LESS
    requires !ClosesArgs(c.(ts := c.ts.tail.tail))
    requires ParseTypeArgs(c.(ts := c.ts.tail.tail), []) == Ok(args, c1) && ConsumeGt(c1).Ok?
    ensures ParseType(c) == Ok(A.PathType([name], args), ConsumeGt(c1).c)
  {
    assert [] + [name] == [name];
    assert ParsePath(c, []) == Ok([name], c.(ts := c.ts.tail));
  }

  lemma LastArgReads(name: string, c: Cursor, before: seq<A.Type>)
    requires c.ts.More? && c.ts.head == Name(name) && c.ts.tail.More?
    requires c.ts.tail.head.kind == RParen || c.ts.tail.head.kind == GreaterGreater
    ensures ParseTypeArgs(c, before) == Ok(before + [Named(name)], c.(ts := c.ts.tail))
  {
    NameReads(name, c);
  }

  /** What such a comma does: for any names, `x<y<z>>, w)` with its pair fused
      does not read as `x<y<z>>` up to the comma: the arguments of `x` take the comma and
      `w` before the `>` that is banked, which makes `x<y<z>, w>`. */
  lemma CommaAfterPairIsTaken(x: string, y: string, z: string, w: string, rest: Stream, c: Cursor)
    requires c.bank == 0
    requires c.ts == More(Name(x), More(LESS, More(Name(y), More(LESS, More(Name(z), More(PAIR,
      More(COMMA, More(Name(w), More(RPAREN, rest)))))))))
    ensures ParseClosedType(c)
      == Ok(A.PathType([x], [A.PathType([y], [Named(z)]), Named(w)]), c.(ts := More(RPAREN, rest)))
  {
    var ofY := A.PathType([y], [Named(z)]);
    var atY := c.(ts := c.ts.tail.tail);
    var atZ := c.(ts := atY.ts.tail.tail);
    LastArgReads(z, atZ, []);
    assert [] + [Named(z)] == [Named(z)];
    NameWithArgsReads(y, atY, [Named(z)], c.(ts := atZ.ts.tail));
    var atW := c.(ts := atZ.ts.tail.tail.tail, bank := 1);
    LastArgReads(w, atW, [ofY]);
    assert [] + [ofY] == [ofY] && [ofY] + [Named(w)] == [ofY, Named(w)];
    NameWithArgsReads(x, c, [ofY, Named(w)], atW.(ts := More(RPAREN, rest)));
  }
}
