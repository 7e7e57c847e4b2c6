/** The recursive-descent parser: a cursor over the token list that its methods move, each
    proved to read what the corresponding rule of the grammar reads. */
module Parser {
  import opened Options
  import opened Tokens
  import opened Grammar
  import A = Ast

  /** A null result is the failure of a rule. */
  function Outcome<T>(r: Option<T>, c: Cursor): Parsed<T> {
    match r
    case None => Fail(c)
    case Some(value) => Ok(value, c)
  }

  class Parser {
    const tokens: TokenList
    var pos: nat
    var bankedGt: nat
    var allowStructLit: bool
    var diags: nat

    /** The cursor never rests on a token the grammar does not see. */
    ghost predicate Valid()
      reads this
    {
      pos < |tokens| && !IsInsignificant(tokens[pos].kind)
    }

    /** Where the grammar is. */
    ghost function Now(): Cursor
      reads this
    {
      Cursor(Words(tokens, pos), bankedGt, allowStructLit, diags)
    }

    ghost function Left(): nat
      reads this
    {
      Length(Words(tokens, pos))
    }

    constructor (tokens: TokenList)
      ensures Valid() && this.tokens == tokens
      ensures Now() == Cursor(Words(tokens, 0), 0, true, ReservedAhead(tokens, 0))
    {
      this.tokens := tokens;
      pos, bankedGt, allowStructLit, diags := 0, 0, true, 0;
      new;
      SkipInsignificant();
    }

    // ----- The cursor -----

    /** Moves to the next significant token; reserved words on the way are reported. */
    method SkipInsignificant()
      requires pos < |tokens|
      modifies this
      ensures Valid() && pos >= old(pos)
      ensures Now() == Cursor(Words(tokens, old(pos)), old(bankedGt), old(allowStructLit),
                              old(diags) + ReservedAhead(tokens, old(pos)))
    {
      while IsInsignificant(tokens[pos].kind)
        invariant old(pos) <= pos < |tokens|
        invariant Words(tokens, pos) == Words(tokens, old(pos))
        invariant diags + ReservedAhead(tokens, pos) == old(diags) + ReservedAhead(tokens, old(pos))
        invariant bankedGt == old(bankedGt) && allowStructLit == old(allowStructLit)
        decreases |tokens| - pos
      {
        if IsReserved(tokens[pos].kind) {
          diags := diags + 1;
        }
        pos := pos + 1;
      }
    }

    predicate AtEnd()
      requires Valid()
      reads this
      ensures AtEnd() == Now().AtEnd()
    {
      tokens[pos].kind == Eof
    }

    function PeekKind(): (kind: Kind)
      requires Valid()
      reads this
      ensures kind == Now().Peek()
    {
      tokens[pos].kind
    }

    function Spelling(): (s: string)
      requires Valid()
      reads this
      ensures Now().ts.More? && s == Now().ts.head.spelling
    {
      tokens[pos].spelling
    }

    predicate Check(kind: Kind)
      requires Valid()
      reads this
      ensures Check(kind) == Now().Check(kind)
    {
      !AtEnd() && PeekKind() == kind
    }

    method Advance()
      requires Valid() && !AtEnd()
      modifies this
      ensures Valid() && Now() == Grammar.Advance(old(Now())) && pos > old(pos)
    {
      pos := pos + 1;
      SkipInsignificant();
    }

    method Match(kind: Kind) returns (found: bool)
      requires Valid()
      modifies this
      ensures Valid() && found == old(Check(kind))
      ensures Now() == if found then Grammar.Advance(old(Now())) else old(Now())
    {
      found := Check(kind);
      if found {
        Advance();
      }
    }

    method Report()
      requires Valid()
      modifies `diags
      ensures Valid() && Now() == old(Now()).Report()
    {
      diags := diags + 1;
    }

    method Expect(kind: Kind) returns (found: bool)
      requires Valid()
      modifies this
      ensures Valid() && Outcome(if found then Some(()) else None, Now()) == Grammar.Expect(old(Now()), kind)
    {
      found := Match(kind);
      if !found {
        Report();
      }
    }

    /** Recovery: on to the next boundary, and at least one token on. */
    method Synchronize()
      requires Valid()
      modifies this
      ensures Valid() && Now() == Grammar.Synchronize(old(Now()))
    {
      ghost var start := Now();
      var mark := pos;
      var depth := 0;
      while !AtEnd() && !(depth == 0 && StopsSync(PeekKind()))
        invariant Valid() && depth >= 0 && mark <= pos
        invariant SkipToBoundary(start, 0) == SkipToBoundary(Now(), depth)
        invariant mark == pos ==> Now() == start
        invariant mark < pos ==> Left() < start.Left()
        decreases Left()
      {
        if IsOpener(PeekKind()) {
          depth := depth + 1;
        } else if IsCloser(PeekKind()) && depth > 0 {
          depth := depth - 1;
        }
        Advance();
      }
      if pos == mark && !AtEnd() {
        Advance();
      } else if !AtEnd() && (PeekKind() == Semicolon || PeekKind() == Comma) {
        Advance();
      }
    }

    method ScanLead() returns (lead: StmtLead)
      requires Valid()
      ensures lead == Grammar.ScanLead(Now().ts, 0)
    {
      var depth := 0;
      var i := pos;
      while i < |tokens|
        invariant pos <= i <= |tokens| && depth >= 0
        invariant Grammar.ScanLead(Now().ts, 0) == Grammar.ScanLead(Words(tokens, i), depth)
        decreases |tokens| - i
      {
        var kind := tokens[i].kind;
        if !IsInsignificant(kind) {
          if depth == 0 {
            if kind == ColonEq {
              return DeclLead;
            }
            if kind == Eq || IsCompoundAssign(kind) {
              return ReassignLead;
            }
            if kind == Semicolon || kind == RBrace || kind == LBrace || kind == Eof {
              return NoLead;
            }
          }
          if IsOpener(kind) {
            depth := depth + 1;
          } else if IsCloser(kind) && depth > 0 {
            depth := depth - 1;
          }
        }
        i := i + 1;
      }
      return NoLead;
    }

    // ----- Small pieces -----

    method ParseIdent() returns (r: Option<string>)
      requires Valid()
      modifies this
      ensures Valid() && Outcome(r, Now()) == Grammar.ParseIdent(old(Now()))
    {
      if PeekKind() != Ident {
        var _ := Expect(Ident);
        return None;
      }
      var name := Spelling();
      Advance();
      return Some(name);
    }

    method ParsePath() returns (r: Option<A.Path>)
      requires Valid()
      modifies this
      ensures Valid() && Outcome(r, Now()) == Grammar.ParsePath(old(Now()), [])
    {
      var segments: A.Path := [];
      while true
        invariant Valid()
        invariant Grammar.ParsePath(old(Now()), []) == Grammar.ParsePath(Now(), segments)
        decreases Left()
      {
        if !IsPathSegment(PeekKind()) {
          if segments == [] {
            var _ := Expect(Ident);
            return None;
          }
          break;
        }
        segments := segments + [Spelling()];
        Advance();
        var more := Match(ColonColon);
        if !more {
          break;
        }
        if AtEnd() {
          var _ := Expect(Ident);
          return None;
        }
      }
      return Some(segments);
    }

    // ----- Types -----

    method ConsumeGt() returns (found: bool)
      requires Valid()
      modifies this
      ensures Valid() && Outcome(if found then Some(()) else None, Now()) == Grammar.ConsumeGt(old(Now()))
    {
      if bankedGt > 0 {
        bankedGt := bankedGt - 1;
        return true;
      }
      if Check(Greater) {
        Advance();
        return true;
      }
      if Check(GreaterGreater) {
        Advance();
        bankedGt := 1;
        return true;
      }
      return false;
    }

    method ParseType() returns (r: Option<A.Type>)
      requires Valid()
      modifies this
      ensures Valid() && Outcome(r, Now()) == Grammar.ParseType(old(Now()))
      decreases Left(), 2
    {
      var kind := PeekKind();
      if kind == LParen {
        r := ParseParenthesizedType();
      } else if kind == Bang {
        Advance();
        r := Some(A.NeverType);
      } else if kind == Amp {
        Advance();
        var isMut := Match(Mut);
        var inner := ParseType();
        if inner.None? {
          return None;
        }
        r := Some(A.RefType(isMut, inner.value));
      } else if kind == Str {
        Advance();
        r := Some(A.StrType);
      } else if PrimitiveOf(kind).Some? {
        Advance();
        r := Some(A.PrimitiveType(PrimitiveOf(kind).value));
      } else {
        r := ParsePathType();
      }
    }

    method ParseParenthesizedType() returns (r: Option<A.Type>)
      requires Valid() && PeekKind() == LParen
      modifies this
      ensures Valid() && Outcome(r, Now()) == Grammar.ParseParenthesizedType(old(Now()))
      decreases Left(), 0
    {
      Advance();
      var closed := Match(RParen);
      if closed {
        return Some(A.UnitType);
      }
      var first := ParseType();
      if first.None? {
        return None;
      }
      var comma := Match(Comma);
      if !comma {
        var found := Expect(RParen);
        return if found then first else None;
      }
      var elements := ParseTupleTypes(first.value);
      if elements.None? {
        return None;
      }
      var found := Expect(RParen);
      return if found then Some(A.TupleType(elements.value)) else None;
    }

    method ParseTupleTypes(first: A.Type) returns (r: Option<seq<A.Type>>)
      requires Valid()
      modifies this
      ensures Valid() && Outcome(r, Now()) == Grammar.ParseTupleTypes(old(Now()), [first])
      decreases Left(), 3
    {
      var elements := [first];
      while !Check(RParen) && !AtEnd()
        invariant Valid() && Left() <= old(Left())
        invariant Grammar.ParseTupleTypes(old(Now()), [first]) == Grammar.ParseTupleTypes(Now(), elements)
        decreases Left()
      {
        var element := ParseType();
        if element.None? {
          return None;
        }
        elements := elements + [element.value];
        var comma := Match(Comma);
        if !comma {
          return Some(elements);
        }
      }
      return Some(elements);
    }

    method ParsePathType() returns (r: Option<A.Type>)
      requires Valid()
      modifies this
      ensures Valid() && Outcome(r, Now()) == Grammar.ParsePathType(old(Now()))
      decreases Left(), 1
    {
      var path := ParsePath();
      if path.None? {
        return None;
      }
      var less := Match(Less);
      if !less {
        return Some(A.PathType(path.value, []));
      }
      var args: Option<seq<A.Type>> := Some([]);
      if !Check(Greater) && !Check(GreaterGreater) && !AtEnd() {
        args := ParseTypeArgs();
        if args.None? {
          return None;
        }
      }
      var closed := ConsumeGt();
      if !closed {
        var _ := Expect(Greater);
        return None;
      }
      return Some(A.PathType(path.value, args.value));
    }

    method ParseTypeArgs() returns (r: Option<seq<A.Type>>)
      requires Valid()
      modifies this
      ensures Valid() && Outcome(r, Now()) == Grammar.ParseTypeArgs(old(Now()), [])
      decreases Left(), 3
    {
      var args: seq<A.Type> := [];
      while true
        invariant Valid() && Left() <= old(Left())
        invariant Grammar.ParseTypeArgs(old(Now()), []) == Grammar.ParseTypeArgs(Now(), args)
        decreases Left()
      {
        var arg := ParseType();
        if arg.None? {
          return None;
        }
        args := args + [arg.value];
        var comma := Match(Comma);
        if !comma || Check(Greater) || Check(GreaterGreater) || AtEnd() {
          return Some(args);
        }
      }
    }

    method ParseClosedType() returns (r: Option<A.Type>)
      requires Valid()
      modifies this
      ensures Valid() && Outcome(r, Now()) == Grammar.ParseClosedType(old(Now()))
    {
      r := ParseType();
      if r.None? {
        return None;
      }
      if bankedGt > 0 {
        bankedGt := 0;
        var _ := Expect(Greater);
        return None;
      }
    }

    // ----- Patterns -----

    method ParsePattern() returns (r: Option<A.Pattern>)
      requires Valid()
      modifies this
      ensures Valid() && Outcome(r, Now()) == Grammar.ParsePattern(old(Now()))
      decreases Left(), 4
    {
      var first := ParsePrimaryPattern();
      if first.None? {
        return None;
      }
      var more := Match(Pipe);
      if !more {
        return first;
      }
      var rest: seq<A.Pattern> := [];
      ghost var start := Now();
      while true
        invariant Valid() && Left() < old(Left())
        invariant Grammar.ParseAlternatives(start, []) == Grammar.ParseAlternatives(Now(), rest)
        decreases Left()
      {
        var alternative := ParsePrimaryPattern();
        if alternative.None? {
          return None;
        }
        rest := rest + [alternative.value];
        more := Match(Pipe);
        if !more {
          break;
        }
      }
      return Some(A.OrPattern(first.value, rest));
    }

    method ParsePrimaryPattern() returns (r: Option<A.Pattern>)
      requires Valid()
      modifies this
      ensures Valid() && Outcome(r, Now()) == Grammar.ParsePrimaryPattern(old(Now()))
      decreases Left(), 3
    {
      var kind := PeekKind();
      if kind == Underscore {
        Advance();
        return Some(A.WildcardPattern);
      } else if kind == Mut {
        Advance();
        var name := ParseIdent();
        return if name.Some? then Some(A.MutIdentPattern(name.value)) else None;
      } else if IsLiteral(kind) {
        var literal := A.Literal(LiteralKindOf(kind), Spelling());
        Advance();
        return Some(A.LiteralPattern(literal));
      } else if kind == Minus {
        Advance();
        if PeekKind() != Integer && PeekKind() != Float {
          var _ := Expect(Integer);
          return None;
        }
        var literal := A.Literal(LiteralKindOf(PeekKind()), Spelling());
        Advance();
        return Some(A.LiteralPattern(literal));
      } else if kind == Amp {
        Advance();
        var isMut := Match(Mut);
        var inner := ParsePrimaryPattern();
        return if inner.Some? then Some(A.RefPattern(isMut, inner.value)) else None;
      } else if kind == LParen {
        r := ParseParenthesizedPattern();
      } else {
        r := ParsePathPattern();
      }
    }

    /** A parenthesized pattern or a tuple pattern. */
    method ParseParenthesizedPattern() returns (r: Option<A.Pattern>)
      requires Valid() && PeekKind() == LParen
      modifies this
      ensures Valid() && Outcome(r, Now()) == Grammar.ParsePrimaryPattern(old(Now()))
      decreases Left(), 0
    {
      Advance();
      var first := ParsePattern();
      if first.None? {
        return None;
      }
      var comma := Match(Comma);
      if !comma {
        var found := Expect(RParen);
        return if found then first else None;
      }
      var elements := ParseTuplePatterns(first.value);
      if elements.None? {
        return None;
      }
      var found := Expect(RParen);
      return if found then Some(A.TuplePattern(None, elements.value)) else None;
    }

    method ParseTuplePatterns(first: A.Pattern) returns (r: Option<seq<A.Pattern>>)
      requires Valid()
      modifies this
      ensures Valid() && Outcome(r, Now()) == Grammar.ParseTuplePatterns(old(Now()), [first])
      decreases Left(), 5
    {
      var elements := [first];
      while !Check(RParen) && !AtEnd()
        invariant Valid() && Left() <= old(Left())
        invariant Grammar.ParseTuplePatterns(old(Now()), [first]) == Grammar.ParseTuplePatterns(Now(), elements)
        decreases Left()
      {
        var element := ParsePattern();
        if element.None? {
          return None;
        }
        elements := elements + [element.value];
        var comma := Match(Comma);
        if !comma {
          return Some(elements);
        }
      }
      return Some(elements);
    }

    method ParsePathPattern() returns (r: Option<A.Pattern>)
      requires Valid()
      modifies this
      ensures Valid() && Outcome(r, Now()) == Grammar.ParsePathPattern(old(Now()))
      decreases Left(), 2
    {
      var path := ParsePath();
      if path.None? {
        return None;
      }
      if IsBinding(path.value) {
        return Some(A.IdentPattern(path.value[0]));
      }
      var open := Match(LParen);
      if open {
        var elements := ParsePatternArgs();
        return if elements.Some? then Some(A.TuplePattern(Some(path.value), elements.value)) else None;
      }
      open := Match(LBrace);
      if open {
        var fields := ParseFieldPatterns();
        if fields.None? {
          return None;
        }
        var found := Expect(RBrace);
        return if found then Some(A.StructPattern(path.value, fields.value)) else None;
      }
      return Some(A.TuplePattern(Some(path.value), []));
    }

    /** Sub-patterns of a variant up to and with the closing parenthesis. */
    method ParsePatternArgs() returns (r: Option<seq<A.Pattern>>)
      requires Valid()
      modifies this
      ensures Valid() && Outcome(r, Now()) == Grammar.ParsePatternArgs(old(Now()))
      decreases Left(), 6
    {
      var elements: seq<A.Pattern> := [];
      if !Check(RParen) {
        while true
          invariant Valid() && Left() <= old(Left())
          invariant Grammar.ParsePatternList(old(Now()), []) == Grammar.ParsePatternList(Now(), elements)
          decreases Left()
        {
          var element := ParsePattern();
          if element.None? {
            return None;
          }
          elements := elements + [element.value];
          var comma := Match(Comma);
          if !comma || Check(RParen) {
            break;
          }
        }
      }
      var found := Expect(RParen);
      return if found then Some(elements) else None;
    }

    method ParseFieldPatterns() returns (r: Option<seq<A.FieldPattern>>)
      requires Valid()
      modifies this
      ensures Valid() && Outcome(r, Now()) == Grammar.ParseFieldPatterns(old(Now()), [])
      decreases Left(), 5
    {
      var fields: seq<A.FieldPattern> := [];
      while !Check(RBrace) && !AtEnd()
        invariant Valid() && Left() <= old(Left())
        invariant Grammar.ParseFieldPatterns(old(Now()), []) == Grammar.ParseFieldPatterns(Now(), fields)
        decreases Left()
      {
        var name := ParseIdent();
        if name.None? {
          return None;
        }
        var sub := Some(A.IdentPattern(name.value));
        var colon := Match(Colon);
        if colon {
          sub := ParsePattern();
          if sub.None? {
            return None;
          }
        }
        fields := fields + [A.FieldPattern(name.value, sub.value)];
        var comma := Match(Comma);
        if !comma {
          return Some(fields);
        }
      }
      return Some(fields);
    }

    // ----- Expressions: the precedence ladder -----

    method ParseExpr() returns (r: Option<A.Expr>)
      requires Valid()
      modifies this
      ensures Valid() && Outcome(r, Now()) == Grammar.ParseExpr(old(Now()))
      decreases Left(), 31
    {
      r := ParseRange();
    }

    method ParseRange() returns (r: Option<A.Expr>)
      requires Valid()
      modifies this
      ensures Valid() && Outcome(r, Now()) == Grammar.ParseRange(old(Now()))
      decreases Left(), 30
    {
      var start: Option<A.Expr> := None;
      if !IsRangeOp(PeekKind()) {
        start := ParseBinary(OR);
        if start.None? || !IsRangeOp(PeekKind()) {
          return start;
        }
      }
      r := ParseRangeEnd(start);
    }

    method ParseRangeEnd(start: Option<A.Expr>) returns (r: Option<A.Expr>)
      requires Valid() && IsRangeOp(PeekKind())
      modifies this
      ensures Valid() && Outcome(r, Now()) == Grammar.ParseRangeEnd(old(Now()), start)
      decreases Left(), 0
    {
      var kind := PeekKind();
      Advance();
      if kind == DotDot || AtEnd() || IsCloser(PeekKind()) || Check(Comma) || Check(Semicolon) {
        return Some(A.RangeExpr(start, None, kind == DotDotEq));
      }
      var end := ParseBinary(OR);
      return if end.Some? then Some(A.RangeExpr(start, end, kind == DotDotEq)) else None;
    }

    /** The rungs of binary operators. */
    method ParseBinary(level: nat) returns (r: Option<A.Expr>)
      requires Valid() && level <= POW
      modifies this
      ensures Valid() && Outcome(r, Now()) == Grammar.ParseBinary(level, old(Now()))
      decreases Left(), 29 - level
    {
      if level == POW {
        r := ParsePow();
        return;
      }
      if level == CMP {
        r := ParseCmp();
        return;
      }
      var lhs := ParseBinary(level + 1);
      if lhs.None? {
        return None;
      }
      r := ParseBinaryRest(level, lhs.value);
    }

    /** The operators of one rung, from left to right. */
    method ParseBinaryRest(level: nat, first: A.Expr) returns (r: Option<A.Expr>)
      requires Valid() && level < POW && level != CMP
      modifies this
      ensures Valid() && Outcome(r, Now()) == Grammar.ParseBinaryRest(level, first, old(Now()))
      decreases Left(), 29
    {
      var lhs := first;
      while OpAt(level, PeekKind()).Some?
        invariant Valid() && Left() <= old(Left())
        invariant Grammar.ParseBinaryRest(level, first, old(Now())) == Grammar.ParseBinaryRest(level, lhs, Now())
        decreases Left()
      {
        var op := OpAt(level, PeekKind()).value;
        Advance();
        var rhs := ParseBinary(level + 1);
        if rhs.None? {
          return None;
        }
        lhs := A.BinaryExpr(op, lhs, rhs.value);
      }
      return Some(lhs);
    }

    /** Comparison does not chain. */
    method ParseCmp() returns (r: Option<A.Expr>)
      requires Valid()
      modifies this
      ensures Valid() && Outcome(r, Now()) == Grammar.ParseBinary(CMP, old(Now()))
      decreases Left(), 29 - CMP, 0
    {
      var lhs := ParseBinary(BIT_OR);
      if lhs.None? || OpAt(CMP, PeekKind()).None? {
        return lhs;
      }
      var op := OpAt(CMP, PeekKind()).value;
      Advance();
      var rhs := ParseBinary(BIT_OR);
      return if rhs.Some? then Some(A.BinaryExpr(op, lhs.value, rhs.value)) else None;
    }

    method ParsePow() returns (r: Option<A.Expr>)
      requires Valid()
      modifies this
      ensures Valid() && Outcome(r, Now()) == Grammar.ParsePow(old(Now()))
      decreases Left(), 19
    {
      var lhs := ParseCast();
      if lhs.None? {
        return None;
      }
      var found := Match(StarStar);
      if !found {
        return lhs;
      }
      var rhs := ParsePow();
      return if rhs.Some? then Some(A.BinaryExpr(A.Pow, lhs.value, rhs.value)) else None;
    }

    method ParseCast() returns (r: Option<A.Expr>)
      requires Valid()
      modifies this
      ensures Valid() && Outcome(r, Now()) == Grammar.ParseCast(old(Now()))
      decreases Left(), 18
    {
      var inner := ParseUnary();
      if inner.None? {
        return None;
      }
      var found := Match(As);
      if !found {
        return inner;
      }
      var target := ParseClosedType();
      return if target.Some? then Some(A.CastExpr(inner.value, target.value)) else None;
    }

    method ParseUnary() returns (r: Option<A.Expr>)
      requires Valid()
      modifies this
      ensures Valid() && Outcome(r, Now()) == Grammar.ParseUnary(old(Now()))
      decreases Left(), 17
    {
      var kind := PeekKind();
      if kind == Amp {
        Advance();
        var isMut := Match(Mut);
        var inner := ParseUnary();
        return if inner.Some? then Some(A.BorrowExpr(isMut, inner.value)) else None;
      } else if UnaryOpOf(kind).Some? {
        Advance();
        var inner := ParseUnary();
        return if inner.Some? then Some(A.UnaryExpr(UnaryOpOf(kind).value, inner.value)) else None;
      } else {
        r := ParsePostfix();
      }
    }

    method ParsePostfix() returns (r: Option<A.Expr>)
      requires Valid()
      modifies this
      ensures Valid() && Outcome(r, Now()) == Grammar.ParsePostfix(old(Now()))
      decreases Left(), 16
    {
      r := ParsePrimary();
      while r.Some? && (Check(LParen) || Check(Dot) || Check(LBracket) || Check(Question))
        invariant Valid() && Left() <= old(Left()) && (r.Some? ==> Left() < old(Left()))
        invariant Grammar.ParsePostfix(old(Now()))
          == if r.Some? then ParsePostfixRest(r.value, Now()) else Fail(Now())
        decreases r.Some?, Left()
      {
        r := ParsePostfixStep(r.value);
      }
    }

    /** One postfix form after its receiver. */
    method ParsePostfixStep(receiver: A.Expr) returns (r: Option<A.Expr>)
      requires Valid() && (Check(LParen) || Check(Dot) || Check(LBracket) || Check(Question))
      modifies this
      ensures Valid() && Left() <= old(Left()) && (r.Some? ==> Left() < old(Left()))
      ensures ParsePostfixRest(receiver, old(Now()))
        == if r.Some? then ParsePostfixRest(r.value, Now()) else Fail(Now())
      decreases Left(), 1
    {
      if Check(LParen) {
        Advance();
        var args := ParseArgs();
        return if args.Some? then Some(A.CallExpr(receiver, args.value)) else None;
      } else if Check(Dot) {
        r := ParseMember(receiver);
      } else if Check(LBracket) {
        r := ParseIndex(receiver);
      } else {
        Advance();
        return Some(A.QuestionExpr(receiver));
      }
    }

    method ParseMember(receiver: A.Expr) returns (r: Option<A.Expr>)
      requires Valid() && Check(Dot)
      modifies this
      ensures Valid() && Left() <= old(Left()) && (r.Some? ==> Left() < old(Left()))
      ensures ParsePostfixRest(receiver, old(Now()))
        == if r.Some? then ParsePostfixRest(r.value, Now()) else Fail(Now())
      decreases Left(), 0
    {
      Advance();
      if PeekKind() == Integer {
        var name := Spelling();
        Advance();
        return Some(A.FieldExpr(receiver, name));
      }
      r := ParseNamedMember(receiver);
    }

    method ParseIndex(receiver: A.Expr) returns (r: Option<A.Expr>)
      requires Valid() && Check(LBracket)
      modifies this
      ensures Valid() && Left() <= old(Left()) && (r.Some? ==> Left() < old(Left()))
      ensures ParsePostfixRest(receiver, old(Now()))
        == if r.Some? then ParsePostfixRest(r.value, Now()) else Fail(Now())
      decreases Left(), 0
    {
      Advance();
      var index := ParseExpr();
      if index.None? {
        return None;
      }
      var found := Expect(RBracket);
      return if found then Some(A.IndexExpr(receiver, index.value)) else None;
    }

    /** A named field or a method call, after its dot. */
    method ParseNamedMember(receiver: A.Expr) returns (r: Option<A.Expr>)
      requires Valid()
      modifies this
      ensures Valid()
      ensures Grammar.ParseNamedMember(receiver, old(Now())) == Outcome(r, Now())
      decreases Left(), 0
    {
      var name := ParseIdent();
      if name.None? {
        return None;
      }
      var called := Match(LParen);
      if !called {
        return Some(A.FieldExpr(receiver, name.value));
      }
      var args := ParseArgs();
      return if args.Some? then Some(A.MethodCallExpr(receiver, name.value, args.value)) else None;
    }

    /** Call arguments up to and with the closing parenthesis. */
    method ParseArgs() returns (r: Option<seq<A.Expr>>)
      requires Valid()
      modifies this
      ensures Valid() && Outcome(r, Now()) == Grammar.ParseArgs(old(Now()))
      decreases Left(), 33
    {
      var args: seq<A.Expr> := [];
      if !Check(RParen) {
        while true
          invariant Valid() && Left() <= old(Left())
          invariant ParseArgList(old(Now()), []) == ParseArgList(Now(), args)
          decreases Left()
        {
          var arg := ParseExpr();
          if arg.None? {
            return None;
          }
          args := args + [arg.value];
          var comma := Match(Comma);
          if !comma || Check(RParen) {
            break;
          }
        }
      }
      var found := Expect(RParen);
      return if found then Some(args) else None;
    }

    method ParsePrimary() returns (r: Option<A.Expr>)
      requires Valid()
      modifies this
      ensures Valid() && Outcome(r, Now()) == Grammar.ParsePrimary(old(Now()))
      decreases Left(), 15
    {
      var kind := PeekKind();
      if IsLiteral(kind) {
        var literal := A.Literal(LiteralKindOf(kind), Spelling());
        Advance();
        r := Some(A.LiteralExpr(literal));
      } else if kind == LParen {
        r := ParseParenthesized();
      } else if kind == LBrace {
        var block := ParseBlock();
        r := if block.Some? then Some(A.BlockExpr(block.value)) else None;
      } else if kind == If {
        r := ParseIf();
      } else if kind == Tokens.Match {
        r := ParseMatch();
      } else if kind == Loop {
        Advance();
        var body := ParseBlock();
        r := if body.Some? then Some(A.LoopExpr(body.value)) else None;
      } else if kind == While {
        Advance();
        var cond := ParseCond();
        if cond.None? {
          return None;
        }
        var body := ParseBlock();
        r := if body.Some? then Some(A.WhileExpr(cond.value, body.value)) else None;
      } else if kind == Ret {
        r := ParseReturn();
      } else if kind == Break {
        Advance();
        r := Some(A.BreakExpr);
      } else if kind == Continue {
        Advance();
        r := Some(A.ContinueExpr);
      } else {
        r := ParsePathExpr();
      }
    }

    method ParseParenthesized() returns (r: Option<A.Expr>)
      requires Valid() && PeekKind() == LParen
      modifies this
      ensures Valid() && Outcome(r, Now()) == Grammar.ParseParenthesized(old(Now()))
      decreases Left(), 0
    {
      Advance();
      var first := ParseExpr();
      if first.None? {
        return None;
      }
      var comma := Match(Comma);
      if !comma {
        var found := Expect(RParen);
        return if found then first else None;
      }
      var elements := ParseTuple(first.value);
      if elements.None? {
        return None;
      }
      var found := Expect(RParen);
      return if found then Some(A.TupleExpr(elements.value)) else None;
    }

    method ParseTuple(first: A.Expr) returns (r: Option<seq<A.Expr>>)
      requires Valid()
      modifies this
      ensures Valid() && Outcome(r, Now()) == Grammar.ParseTuple(old(Now()), [first])
      decreases Left(), 32
    {
      var elements := [first];
      while !Check(RParen) && !AtEnd()
        invariant Valid() && Left() <= old(Left())
        invariant Grammar.ParseTuple(old(Now()), [first]) == Grammar.ParseTuple(Now(), elements)
        decreases Left()
      {
        var element := ParseExpr();
        if element.None? {
          return None;
        }
        elements := elements + [element.value];
        var comma := Match(Comma);
        if !comma {
          return Some(elements);
        }
      }
      return Some(elements);
    }

    method ParseReturn() returns (r: Option<A.Expr>)
      requires Valid() && PeekKind() == Ret
      modifies this
      ensures Valid() && Outcome(r, Now()) == Grammar.ParseReturn(old(Now()))
      decreases Left(), 0
    {
      Advance();
      if Check(Semicolon) || Check(RBrace) || AtEnd() {
        return Some(A.ReturnExpr(None));
      }
      var result := ParseExpr();
      return if result.Some? then Some(A.ReturnExpr(result)) else None;
    }

    method ParsePathExpr() returns (r: Option<A.Expr>)
      requires Valid()
      modifies this
      ensures Valid() && Outcome(r, Now()) == Grammar.ParsePathExpr(old(Now()))
      decreases Left(), 14
    {
      var path := ParsePath();
      if path.None? {
        return None;
      }
      var open := Match(LParen);
      if open {
        var args := ParseArgs();
        return if args.Some? then Some(A.CallExpr(A.PathExpr(path.value), args.value)) else None;
      }
      if allowStructLit {
        open := Match(LBrace);
        if open {
          r := ParseStructLiteral(path.value);
          return;
        }
      }
      return Some(A.PathExpr(path.value));
    }

    /** A struct literal after its opening brace. */
    method ParseStructLiteral(path: A.Path) returns (r: Option<A.Expr>)
      requires Valid()
      modifies this
      ensures Valid() && Outcome(r, Now()) == Grammar.ParseStructLiteral(path, old(Now()))
      decreases Left(), 34
    {
      var parts := ParseInits();
      if parts.None? {
        return None;
      }
      var (fields, base) := parts.value;
      if base.None? {
        var dots := Match(DotDot);
        if dots {
          base := ParseExpr();
          if base.None? {
            return None;
          }
        }
      }
      var found := Expect(RBrace);
      return if found then Some(A.StructExpr(path, fields, base)) else None;
    }

    /** Field initializers, ended by a `..base`, a missing comma or the closing brace. */
    method ParseInits() returns (r: Option<(seq<A.FieldInit>, Option<A.Expr>)>)
      requires Valid()
      modifies this
      ensures Valid() && Outcome(r, Now()) == Grammar.ParseInits(old(Now()), [])
      decreases Left(), 33
    {
      var fields: seq<A.FieldInit> := [];
      while !Check(RBrace) && !AtEnd()
        invariant Valid() && Left() <= old(Left())
        invariant Grammar.ParseInits(old(Now()), []) == Grammar.ParseInits(Now(), fields)
        decreases Left()
      {
        var dots := Match(DotDot);
        if dots {
          var base := ParseExpr();
          return if base.Some? then Some((fields, base)) else None;
        }
        var field := ParseInit();
        if field.None? {
          return None;
        }
        fields := fields + [field.value];
        var comma := Match(Comma);
        if !comma {
          break;
        }
      }
      return Some((fields, None));
    }

    method ParseInit() returns (r: Option<A.FieldInit>)
      requires Valid()
      modifies this
      ensures Valid() && Outcome(r, Now()) == Grammar.ParseInit(old(Now()))
      decreases Left(), 32
    {
      var name := ParseIdent();
      if name.None? {
        return None;
      }
      var colon := Expect(Colon);
      if !colon {
        return None;
      }
      var value := ParseExpr();
      return if value.Some? then Some(A.FieldInit(name.value, value.value)) else None;
    }

    /** An expression before a block, where `{` must not start a struct literal. */
    method ParseHeadExpr() returns (r: Option<A.Expr>)
      requires Valid()
      modifies this
      ensures Valid() && Outcome(r, Now()) == Grammar.ParseHeadExpr(old(Now()))
      decreases Left(), 32
    {
      var saved := allowStructLit;
      allowStructLit := false;
      r := ParseExpr();
      allowStructLit := saved;
    }

    method ParseCond() returns (r: Option<A.Cond>)
      requires Valid()
      modifies this
      ensures Valid() && Outcome(r, Now()) == Grammar.ParseCond(old(Now()))
      decreases Left(), 33
    {
      var lead := ScanLead();
      if lead != DeclLead {
        var value := ParseHeadExpr();
        return if value.Some? then Some(A.ExprCond(value.value)) else None;
      }
      var pattern := ParsePattern();
      if pattern.None? {
        return None;
      }
      var found := Expect(ColonEq);
      if !found {
        return None;
      }
      var init := ParseExpr();
      return if init.Some? then Some(A.PatternCond(pattern.value, init.value)) else None;
    }

    method ParseIf() returns (r: Option<A.Expr>)
      requires Valid() && PeekKind() == If
      modifies this
      ensures Valid() && Outcome(r, Now()) == Grammar.ParseIf(old(Now()))
      decreases Left(), 0
    {
      Advance();
      var cond := ParseCond();
      if cond.None? {
        return None;
      }
      var thenBlock := ParseBlock();
      if thenBlock.None? {
        return None;
      }
      var found := Match(Else);
      if !found {
        return Some(A.IfExpr(cond.value, thenBlock.value, None));
      }
      var elseBlock := ParseBlock();
      return if elseBlock.Some? then Some(A.IfExpr(cond.value, thenBlock.value, elseBlock)) else None;
    }

    method ParseMatch() returns (r: Option<A.Expr>)
      requires Valid() && PeekKind() == Tokens.Match
      modifies this
      ensures Valid() && Outcome(r, Now()) == Grammar.ParseMatch(old(Now()))
      decreases Left(), 0
    {
      Advance();
      var scrutinee := ParseHeadExpr();
      if scrutinee.None? {
        return None;
      }
      var found := Expect(LBrace);
      if !found {
        return None;
      }
      var arms := ParseArms();
      found := Expect(RBrace);
      return if found then Some(A.MatchExpr(scrutinee.value, arms)) else None;
    }

    method ParseArms() returns (arms: seq<A.MatchArm>)
      requires Valid()
      modifies this
      ensures Valid() && (arms, Now()) == Grammar.ParseArms(old(Now()), [])
      decreases Left(), 40
    {
      arms := [];
      while !Check(RBrace) && !AtEnd()
        invariant Valid() && Left() <= old(Left())
        invariant Grammar.ParseArms(old(Now()), []) == Grammar.ParseArms(Now(), arms)
        decreases Left(), AtEndRank(Now())
      {
        if Check(Comma) || Check(Semicolon) {
          Advance();
        } else {
          var arm := ParseArm();
          if arm.None? {
            Synchronize();
          } else {
            arms := arms + [arm.value];
          }
        }
      }
    }

    method ParseArm() returns (r: Option<A.MatchArm>)
      requires Valid()
      modifies this
      ensures Valid() && Outcome(r, Now()) == Grammar.ParseArm(old(Now()))
      decreases Left(), 32
    {
      var pattern := ParsePattern();
      if pattern.None? {
        return None;
      }
      var found := Expect(FatArrow);
      if !found {
        return None;
      }
      var body := ParseExpr();
      return if body.Some? then Some(A.MatchArm(pattern.value, body.value)) else None;
    }

    // ----- Blocks and statements -----

    method ParseBlock() returns (r: Option<A.Block>)
      requires Valid()
      modifies this
      ensures Valid() && Outcome(r, Now()) == Grammar.ParseBlock(old(Now()))
      decreases Left(), 13
    {
      var found := Expect(LBrace);
      if !found {
        return None;
      }
      var statements, value := ParseStmts();
      found := Expect(RBrace);
      return if found then Some(A.Block(statements, value)) else None;
    }

    /** Statements up to the closing brace, and the value of the block. */
    method ParseStmts() returns (statements: seq<A.Stmt>, value: Option<A.Expr>)
      requires Valid()
      modifies this
      ensures Valid() && (statements, value, Now()) == Grammar.ParseStmts(old(Now()), [])
      decreases Left(), 40
    {
      statements, value := [], None;
      while !Check(RBrace) && !AtEnd()
        invariant Valid() && Left() <= old(Left()) && value.None?
        invariant Grammar.ParseStmts(old(Now()), []) == Grammar.ParseStmts(Now(), statements)
        decreases Left(), AtEndRank(Now())
      {
        if Check(Semicolon) {
          Advance();
        } else {
          var stmt := ParseStmt();
          if stmt.None? {
            Synchronize();
          } else if stmt.value.ExprStmt? && (Check(RBrace) || AtEnd()) {
            return statements, Some(stmt.value.value);
          } else {
            statements := statements + [stmt.value];
            EndStmt();
          }
        }
      }
    }

    /** The `;` after a statement; without one, or a closing brace, recovery sets in. */
    method EndStmt()
      requires Valid()
      modifies this
      ensures Valid() && Now() == Grammar.EndStmt(old(Now()))
    {
      var semicolon := Match(Semicolon);
      if !semicolon && !Check(RBrace) && !AtEnd() {
        Report();
        Synchronize();
      }
    }

    method ParseStmt() returns (r: Option<A.Stmt>)
      requires Valid()
      modifies this
      ensures Valid() && Outcome(r, Now()) == Grammar.ParseStmt(old(Now()))
      decreases Left(), 33
    {
      var lead := ScanLead();
      if lead == DeclLead {
        r := ParseDecl();
      } else if lead == ReassignLead {
        r := ParseReassign();
      } else {
        var value := ParseExpr();
        r := if value.Some? then Some(A.ExprStmt(value.value)) else None;
      }
    }

    method ParseDecl() returns (r: Option<A.Stmt>)
      requires Valid() && Grammar.ScanLead(Now().ts, 0) == DeclLead
      modifies this
      ensures Valid() && Outcome(r, Now()) == Grammar.ParseStmt(old(Now()))
      decreases Left(), 32
    {
      var pattern := ParsePattern();
      if pattern.None? {
        return None;
      }
      var ascription: Option<A.Type> := None;
      var colon := Match(Colon);
      if colon {
        ascription := ParseClosedType();
        if ascription.None? {
          return None;
        }
      }
      var found := Expect(ColonEq);
      if !found {
        return None;
      }
      var init := ParseExpr();
      return if init.Some? then Some(A.DeclStmt(pattern.value, ascription, init.value)) else None;
    }

    method ParseReassign() returns (r: Option<A.Stmt>)
      requires Valid() && Grammar.ScanLead(Now().ts, 0) == ReassignLead
      modifies this
      ensures Valid() && Outcome(r, Now()) == Grammar.ParseStmt(old(Now()))
      decreases Left(), 32
    {
      var place := ParseExpr();
      if place.None? {
        return None;
      }
      var compound: Option<A.BinaryOp> := None;
      var plain := Match(Eq);
      if !plain {
        if !IsCompoundAssign(PeekKind()) {
          var _ := Expect(Eq);
          return None;
        }
        compound := Some(CompoundOp(PeekKind()));
        Advance();
      }
      var value := ParseExpr();
      return if value.Some? then Some(A.ReassignStmt(place.value, compound, value.value)) else None;
    }

    // ----- Items -----

    /** Parses a whole file: always ends at the end-of-file token, with the items and the
        diagnostics that the grammar gives. */
    method Parse() returns (items: seq<A.Item>)
      requires Valid() && Now() == Cursor(Words(tokens, 0), 0, true, ReservedAhead(tokens, 0))
      modifies this
      ensures Valid() && pos == |tokens| - 1
      ensures (items, Now()) == ParseFile(tokens)
    {
      items := ParseItems(false);
    }

    /** Items of a file, or of an inline module up to its brace. */
    method ParseItems(inModule: bool) returns (items: seq<A.Item>)
      requires Valid()
      modifies this
      ensures Valid() && (items, Now()) == Grammar.ParseItems(old(Now()), inModule, [])
      decreases Left(), 41
    {
      items := [];
      while !AtEnd() && !(inModule && Check(RBrace))
        invariant Valid() && Left() <= old(Left())
        invariant Grammar.ParseItems(old(Now()), inModule, []) == Grammar.ParseItems(Now(), inModule, items)
        decreases Left(), AtEndRank(Now())
      {
        if Check(Semicolon) {
          Advance();
        } else {
          var item := ParseItem();
          if item.None? {
            Synchronize();
          } else {
            items := items + [item.value];
          }
        }
      }
    }

    method ParseItem() returns (r: Option<A.Item>)
      requires Valid()
      modifies this
      ensures Valid() && Outcome(r, Now()) == Grammar.ParseItem(old(Now()))
      decreases Left(), 2
    {
      var isPub := Match(Pub);
      var kind := PeekKind();
      if kind == Fn {
        r := ParseFn(isPub);
      } else if kind == Mod {
        Advance();
        r := ParseMod(isPub);
      } else if kind == Static {
        Advance();
        var v := ParseValueItem();
        r := if v.Some? then Some(A.StaticItem(isPub, v.value.0, v.value.1, v.value.2)) else None;
      } else if kind == Const {
        Advance();
        var v := ParseValueItem();
        r := if v.Some? then Some(A.ConstItem(isPub, v.value.0, v.value.1, v.value.2)) else None;
      } else {
        r := ParseFlatItem(isPub);
      }
    }

    /** The items that hold no items. */
    method ParseFlatItem(isPub: bool) returns (r: Option<A.Item>)
      requires Valid()
      modifies this
      ensures Valid() && Outcome(r, Now()) == Grammar.ParseFlatItem(old(Now()), isPub)
    {
      var kind := PeekKind();
      if kind == Struct {
        Advance();
        r := ParseStruct(isPub);
      } else if kind == Enum {
        Advance();
        r := ParseEnum(isPub);
      } else if kind == Impl {
        Advance();
        r := ParseImpl(isPub);
      } else if kind == Use {
        Advance();
        r := ParseUse(isPub);
      } else {
        Report();
        r := None;
      }
    }

    method ParseImpl(isPub: bool) returns (r: Option<A.Item>)
      requires Valid()
      modifies this
      ensures Valid() && Outcome(r, Now()) == Grammar.ParseImpl(old(Now()), isPub)
    {
      var target := ParseClosedType();
      if target.None? {
        return None;
      }
      var found := Expect(LBrace);
      if !found {
        return None;
      }
      var methods := ParseMethods();
      found := Expect(RBrace);
      return if found then Some(A.ImplItem(isPub, target.value, methods)) else None;
    }

    method ParseMethods() returns (methods: seq<A.Item>)
      requires Valid()
      modifies this
      ensures Valid() && (methods, Now()) == Grammar.ParseMethods(old(Now()), [])
    {
      methods := [];
      while !Check(RBrace) && !AtEnd()
        invariant Valid()
        invariant Grammar.ParseMethods(old(Now()), []) == Grammar.ParseMethods(Now(), methods)
        decreases Left(), AtEndRank(Now())
      {
        if Check(Semicolon) {
          Advance();
        } else {
          var fn := ParseFn(false);
          if fn.None? {
            Synchronize();
          } else {
            methods := methods + [fn.value];
          }
        }
      }
    }

    method ParseMod(isPub: bool) returns (r: Option<A.Item>)
      requires Valid()
      modifies this
      ensures Valid() && Outcome(r, Now()) == Grammar.ParseMod(old(Now()), isPub)
      decreases Left(), 0
    {
      var name := ParseIdent();
      if name.None? {
        return None;
      }
      var ofFile := Match(Semicolon);
      if ofFile {
        return Some(A.ModItem(isPub, name.value, [], false));
      }
      var found := Expect(LBrace);
      if !found {
        return None;
      }
      var items := ParseItems(true);
      found := Expect(RBrace);
      return if found then Some(A.ModItem(isPub, name.value, items, true)) else None;
    }

    method ParseFn(isPub: bool) returns (r: Option<A.Item>)
      requires Valid()
      modifies this
      ensures Valid() && Outcome(r, Now()) == Grammar.ParseFn(old(Now()), isPub)
    {
      var found := Expect(Fn);
      if !found {
        return None;
      }
      var name := ParseIdent();
      if name.None? {
        return None;
      }
      found := Expect(LParen);
      if !found {
        return None;
      }
      var params := ParseParams();
      if params.None? {
        return None;
      }
      r := ParseFnRest(isPub, name.value, params.value);
    }

    /** The return type and the body of a function. */
    method ParseFnRest(isPub: bool, name: string, params: seq<A.FnParam>) returns (r: Option<A.Item>)
      requires Valid()
      modifies this
      ensures Valid() && Outcome(r, Now()) == Grammar.ParseFnRest(old(Now()), isPub, name, params)
    {
      var returnType: Option<A.Type> := None;
      var arrow := Match(Arrow);
      if arrow {
        returnType := ParseClosedType();
        if returnType.None? {
          return None;
        }
      }
      var body := ParseBlock();
      return if body.Some? then Some(A.FnItem(isPub, name, params, returnType, body.value)) else None;
    }

    /** Parameters up to and with the closing parenthesis. */
    method ParseParams() returns (r: Option<seq<A.FnParam>>)
      requires Valid()
      modifies this
      ensures Valid() && Outcome(r, Now()) == Grammar.ParseParams(old(Now()))
    {
      var params: seq<A.FnParam> := [];
      if !Check(RParen) {
        while true
          invariant Valid()
          invariant ParseParamList(old(Now()), []) == ParseParamList(Now(), params)
          decreases Left()
        {
          var param := ParseParam();
          if param.None? {
            return None;
          }
          params := params + [param.value];
          var comma := Match(Comma);
          if !comma || Check(RParen) {
            break;
          }
        }
      }
      var found := Expect(RParen);
      return if found then Some(params) else None;
    }

    method ParseParam() returns (r: Option<A.FnParam>)
      requires Valid()
      modifies this
      ensures Valid() && Outcome(r, Now()) == Grammar.ParseParam(old(Now()))
    {
      var pattern := ParsePattern();
      if pattern.None? {
        return None;
      }
      var colon := Expect(Colon);
      if !colon {
        return None;
      }
      var t := ParseClosedType();
      return if t.Some? then Some(A.FnParam(pattern.value, t.value)) else None;
    }

    method ParseStruct(isPub: bool) returns (r: Option<A.Item>)
      requires Valid()
      modifies this
      ensures Valid() && Outcome(r, Now()) == Grammar.ParseStruct(old(Now()), isPub)
    {
      var name := ParseIdent();
      if name.None? {
        return None;
      }
      var found := Expect(LBrace);
      if !found {
        return None;
      }
      var fields: seq<A.StructField> := [];
      ghost var start := Now();
      while !Check(RBrace) && !AtEnd()
        invariant Valid()
        invariant ParseStructFields(start, []) == ParseStructFields(Now(), fields)
        decreases Left()
      {
        var field := ParseStructField();
        if field.None? {
          return None;
        }
        fields := fields + [field.value];
        var comma := Match(Comma);
        if !comma {
          break;
        }
      }
      found := Expect(RBrace);
      return if found then Some(A.StructItem(isPub, name.value, fields)) else None;
    }

    method ParseStructField() returns (r: Option<A.StructField>)
      requires Valid()
      modifies this
      ensures Valid() && Outcome(r, Now()) == Grammar.ParseStructField(old(Now()))
    {
      var name := ParseIdent();
      if name.None? {
        return None;
      }
      var colon := Expect(Colon);
      if !colon {
        return None;
      }
      var t := ParseClosedType();
      return if t.Some? then Some(A.StructField(name.value, t.value)) else None;
    }

    method ParseEnum(isPub: bool) returns (r: Option<A.Item>)
      requires Valid()
      modifies this
      ensures Valid() && Outcome(r, Now()) == Grammar.ParseEnum(old(Now()), isPub)
    {
      var name := ParseIdent();
      if name.None? {
        return None;
      }
      var found := Expect(LBrace);
      if !found {
        return None;
      }
      var variants: seq<A.EnumVariant> := [];
      ghost var start := Now();
      while !Check(RBrace) && !AtEnd()
        invariant Valid()
        invariant ParseVariants(start, []) == ParseVariants(Now(), variants)
        decreases Left()
      {
        var variant := ParseVariant();
        if variant.None? {
          return None;
        }
        variants := variants + [variant.value];
        var comma := Match(Comma);
        if !comma {
          break;
        }
      }
      found := Expect(RBrace);
      return if found then Some(A.EnumItem(isPub, name.value, variants)) else None;
    }

    method ParseVariant() returns (r: Option<A.EnumVariant>)
      requires Valid()
      modifies this
      ensures Valid() && Outcome(r, Now()) == Grammar.ParseVariant(old(Now()))
    {
      var name := ParseIdent();
      if name.None? {
        return None;
      }
      var fields: seq<A.Type> := [];
      var open := Match(LParen);
      if open {
        var payload := ParsePayload();
        if payload.None? {
          return None;
        }
        fields := payload.value;
      }
      return Some(A.EnumVariant(name.value, fields));
    }

    /** Payload types up to and with the closing parenthesis. */
    method ParsePayload() returns (r: Option<seq<A.Type>>)
      requires Valid()
      modifies this
      ensures Valid() && Outcome(r, Now()) == Grammar.ParsePayload(old(Now()))
    {
      var fields: seq<A.Type> := [];
      if !Check(RParen) {
        while true
          invariant Valid()
          invariant ParsePayloadTypes(old(Now()), []) == ParsePayloadTypes(Now(), fields)
          decreases Left()
        {
          var field := ParseType();
          if field.None? {
            return None;
          }
          fields := fields + [field.value];
          var comma := Match(Comma);
          if !comma || Check(RParen) {
            break;
          }
        }
      }
      var found := Expect(RParen);
      return if found then Some(fields) else None;
    }

    /** Name, type and initializer of a static or a constant. */
    method ParseValueItem() returns (r: Option<(string, A.Type, A.Expr)>)
      requires Valid()
      modifies this
      ensures Valid() && Outcome(r, Now()) == Grammar.ParseValueItem(old(Now()))
    {
      var field := ParseStructField();
      if field.None? {
        return None;
      }
      var found := Expect(Eq);
      if !found {
        return None;
      }
      var init := ParseExpr();
      return if init.Some? then Some((field.value.name, field.value.fieldType, init.value)) else None;
    }

    method ParseUse(isPub: bool) returns (r: Option<A.Item>)
      requires Valid()
      modifies this
      ensures Valid() && Outcome(r, Now()) == Grammar.ParseUse(old(Now()), isPub)
    {
      var path := ParsePath();
      if path.None? {
        return None;
      }
      var alias: Option<string> := None;
      var named := Match(As);
      if named {
        alias := ParseIdent();
        if alias.None? {
          return None;
        }
      }
      var found := Expect(Semicolon);
      return if found then Some(A.UseItem(isPub, path.value, alias)) else None;
    }
  }
}
