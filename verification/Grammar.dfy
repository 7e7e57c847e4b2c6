/** The grammar as the parser reads it: each rule takes a cursor and gives a tree, or
    nothing, and the cursor after it.  A failing rule leaves the cursor where it stopped.
    Every rule terminates because the tokens left, and then the rule's place in the
    grammar, decrease; the contracts say that no rule gives tokens back, that a
    successful one has consumed some, and that words of source text stay that. */
module Grammar {
  import opened Options
  import opened Tokens
  import A = Ast
  import Spelling

  // ----- The cursor -----

  /** The tokens from the cursor on, the `>` left over from a split `>>`, whether a
      struct literal may start here, and the number of diagnostics so far. */
  datatype Cursor = Cursor(ts: Stream, bank: nat, lit: bool, diags: nat) {
    function Peek(): Kind { if ts.End? then Eof else ts.head.kind }

    function Left(): nat { Length(ts) }

    predicate AtEnd() { Peek() == Eof }

    predicate Check(kind: Kind) { !AtEnd() && Peek() == kind }

    function Report(): Cursor { this.(diags := diags + 1) }
  }

  datatype Parsed<+T> = Ok(value: T, c: Cursor) | Fail(c: Cursor) {
    predicate IsFailure() { Fail? }
    function PropagateFailure<U>(): Parsed<U>
      requires Fail?
    {
      Fail(c)
    }
    function Extract(): (T, Cursor)
      requires Ok?
    {
      (value, c)
    }
  }

  /** Every name in the words is one that source text can spell. */
  predicate FromText(s: Stream) {
    s.More? ==> (IsPathSegment(s.head.kind) ==> Spelling.IsWord(s.head.spelling)) && FromText(s.tail)
  }

  /** How many reserved words stand between the words up to the end mark. */
  function Reserved(s: Stream): nat {
    if s.End? || s.head.kind == Eof then 0 else s.head.reserved + Reserved(s.tail)
  }

  /** What was reported, and the reserved words that are still to be. */
  function Due(c: Cursor): nat {
    c.diags + Reserved(c.ts)
  }

  /** Moves to the next word; reserved words in between are reported. */
  function Advance(c: Cursor): (r: Cursor)
    requires !c.AtEnd()
    ensures r.Left() < c.Left() && r.bank == c.bank && r.lit == c.lit && Due(r) == Due(c)
    ensures FromText(c.ts) ==> FromText(r.ts)
  {
    c.(ts := c.ts.tail, diags := c.diags + c.ts.head.reserved)
  }

  function Expect(c: Cursor, kind: Kind): (r: Parsed<()>)
    ensures Advances(c, r)
  {
    if c.Check(kind) then Ok((), Advance(c)) else Fail(c.Report())
  }

  /** No tokens are given back, success consumes some, struct literals may start where they
      might before, and each reserved word passed is reported. */
  ghost predicate Advances<T>(c: Cursor, r: Parsed<T>) {
    Keeps(c, r) && (r.Ok? ==> r.c.Left() < c.Left())
  }

  /** For rules that may match nothing. */
  ghost predicate Keeps<T>(c: Cursor, r: Parsed<T>) {
    r.c.Left() <= c.Left() && r.c.lit == c.lit && Due(c) <= Due(r.c) && (FromText(c.ts) ==> FromText(r.c.ts))
  }

  predicate StopsSync(kind: Kind) {
    kind == Semicolon || kind == Comma || IsCloser(kind)
  }

  /** Recovery: runs to the next boundary outside nested brackets. */
  function SkipToBoundary(c: Cursor, depth: nat): (r: Cursor)
    ensures r.Left() <= c.Left() && r.lit == c.lit && Due(c) <= Due(r) && (FromText(c.ts) ==> FromText(r.ts))
    ensures r.Left() == c.Left() ==> r == c
    decreases c.Left()
  {
    if c.AtEnd() || (depth == 0 && StopsSync(c.Peek())) then c
    else if IsOpener(c.Peek()) then SkipToBoundary(Advance(c), depth + 1)
    else if IsCloser(c.Peek()) && depth > 0 then SkipToBoundary(Advance(c), depth - 1)
    else SkipToBoundary(Advance(c), depth)
  }

  /** Recovery always consumes a token, unless there is none. */
  function Synchronize(c: Cursor): (r: Cursor)
    ensures r.Left() <= c.Left() && r.lit == c.lit && Due(c) <= Due(r) && (FromText(c.ts) ==> FromText(r.ts))
    ensures !c.AtEnd() ==> r.Left() < c.Left()
  {
    var b := SkipToBoundary(c, 0);
    if b.Left() == c.Left() && !b.AtEnd() then Advance(b)
    else if !b.AtEnd() && (b.Peek() == Semicolon || b.Peek() == Comma) then Advance(b)
    else b
  }

  datatype StmtLead = NoLead | DeclLead | ReassignLead

  predicate IsCompoundAssign(kind: Kind) {
    || kind == PlusEq || kind == MinusEq || kind == StarEq || kind == SlashEq || kind == PercentEq
    || kind == StarStarEq || kind == AmpEq || kind == PipeEq || kind == CaretEq || kind == LessLessEq
    || kind == GreaterGreaterEq
  }

  function CompoundOp(kind: Kind): A.BinaryOp {
    if kind == PlusEq then A.Add
    else if kind == MinusEq then A.Sub
    else if kind == StarEq then A.Mul
    else if kind == SlashEq then A.Div
    else if kind == PercentEq then A.Mod
    else if kind == StarStarEq then A.Pow
    else if kind == AmpEq then A.BitAnd
    else if kind == PipeEq then A.BitOr
    else if kind == CaretEq then A.BitXor
    else if kind == LessLessEq then A.Shl
    else A.Shr
  }

  /** What an upcoming statement is, told from its tokens outside brackets. */
  function ScanLead(ts: Stream, depth: nat): StmtLead {
    if ts.End? then NoLead
    else
      var kind := ts.head.kind;
      if depth == 0 && kind == ColonEq then DeclLead
      else if depth == 0 && (kind == Eq || IsCompoundAssign(kind)) then ReassignLead
      else if depth == 0 && (kind == Semicolon || kind == RBrace || kind == LBrace || kind == Eof) then NoLead
      else if IsOpener(kind) then ScanLead(ts.tail, depth + 1)
      else if IsCloser(kind) && depth > 0 then ScanLead(ts.tail, depth - 1)
      else ScanLead(ts.tail, depth)
  }

  // ----- Small pieces -----

  function ParseIdent(c: Cursor): (r: Parsed<string>)
    ensures Advances(c, r)
  {
    if c.Peek() == Ident then Ok(c.ts.head.spelling, Advance(c)) else Fail(c.Report())
  }

  /** A path; `::` before something that is no segment is read and dropped. */
  function ParsePath(c: Cursor, segments: A.Path): (r: Parsed<A.Path>)
    ensures Keeps(c, r)
    ensures r.Ok? && segments == [] ==> r.c.Left() < c.Left() && |r.value| > 0
    ensures r.Ok? ==> segments <= r.value
    decreases c.Left()
  {
    if !IsPathSegment(c.Peek()) then
      if segments == [] then Fail(c.Report()) else Ok(segments, c)
    else
      var segments' := segments + [c.ts.head.spelling];
      var c1 := Advance(c);
      if !c1.Check(ColonColon) then Ok(segments', c1)
      else
        var c2 := Advance(c1);
        if c2.AtEnd() then Fail(c2.Report()) else ParsePath(c2, segments')
  }

  // ----- Types -----

  function PrimitiveOf(kind: Kind): Option<A.PrimitiveKind> {
    if kind == I8 then Some(A.I8)
    else if kind == I16 then Some(A.I16)
    else if kind == I32 then Some(A.I32)
    else if kind == I64 then Some(A.I64)
    else if kind == I128 then Some(A.I128)
    else if kind == Isize then Some(A.Isize)
    else if kind == U8 then Some(A.U8)
    else if kind == U16 then Some(A.U16)
    else if kind == U32 then Some(A.U32)
    else if kind == U64 then Some(A.U64)
    else if kind == U128 then Some(A.U128)
    else if kind == Usize then Some(A.Usize)
    else if kind == F32 then Some(A.F32)
    else if kind == F64 then Some(A.F64)
    else if kind == Bool then Some(A.Bool)
    else None
  }

  /** One closing `>`: from the bank, a token of its own, or half of a `>>`. */
  function ConsumeGt(c: Cursor): (r: Parsed<()>)
    ensures Keeps(c, r)
  {
    if c.bank > 0 then Ok((), c.(bank := c.bank - 1))
    else if c.Check(Greater) then Ok((), Advance(c))
    else if c.Check(GreaterGreater) then Ok((), Advance(c).(bank := 1))
    else Fail(c)
  }

  predicate ClosesArgs(c: Cursor) {
    c.Check(Greater) || c.Check(GreaterGreater) || c.AtEnd()
  }

  function ParseType(c: Cursor): (r: Parsed<A.Type>)
    ensures Advances(c, r)
    decreases c.Left(), 2
  {
    var kind := c.Peek();
    if kind == LParen then ParseParenthesizedType(c)
    else if kind == Bang then Ok(A.NeverType, Advance(c))
    else if kind == Amp then
      var c1 := Advance(c);
      var isMut := c1.Check(Mut);
      var (inner, c2) :- ParseType(if isMut then Advance(c1) else c1);
      Ok(A.RefType(isMut, inner), c2)
    else if kind == Str then Ok(A.StrType, Advance(c))
    else if PrimitiveOf(kind).Some? then Ok(A.PrimitiveType(PrimitiveOf(kind).value), Advance(c))
    else ParsePathType(c)
  }

  /** The unit type, a parenthesized type or a tuple type. */
  function ParseParenthesizedType(c: Cursor): (r: Parsed<A.Type>)
    requires c.Peek() == LParen
    ensures Advances(c, r)
    decreases c.Left(), 0
  {
    var c1 := Advance(c);
    if c1.Check(RParen) then Ok(A.UnitType, Advance(c1))
    else
      var (first, c2) :- ParseType(c1);
      if !c2.Check(Comma) then
        var (_, c3) :- Expect(c2, RParen);
        Ok(first, c3)
      else
        var (elements, c3) :- ParseTupleTypes(Advance(c2), [first]);
        var (_, c4) :- Expect(c3, RParen);
        Ok(A.TupleType(elements), c4)
  }

  function ParsePathType(c: Cursor): (r: Parsed<A.Type>)
    ensures Advances(c, r)
    decreases c.Left(), 1
  {
    var (path, c1) :- ParsePath(c, []);
    if !c1.Check(Less) then Ok(A.PathType(path, []), c1)
    else
      var c2 := Advance(c1);
      if ClosesArgs(c2) then CloseArgs(path, [], c2)
      else
        var (args, c3) :- ParseTypeArgs(c2, []);
        CloseArgs(path, args, c3)
  }

  function CloseArgs(path: A.Path, args: seq<A.Type>, c: Cursor): (r: Parsed<A.Type>)
    ensures Keeps(c, r)
  {
    match ConsumeGt(c)
    case Ok(_, c1) => Ok(A.PathType(path, args), c1)
    case Fail(c1) => Fail(c1.Report())
  }

  function ParseTupleTypes(c: Cursor, elements: seq<A.Type>): (r: Parsed<seq<A.Type>>)
    ensures Keeps(c, r)
    ensures r.Ok? ==> elements <= r.value
    decreases c.Left(), 3
  {
    if c.Check(RParen) || c.AtEnd() then Ok(elements, c)
    else
      var (element, c1) :- ParseType(c);
      if c1.Check(Comma) then ParseTupleTypes(Advance(c1), elements + [element])
      else Ok(elements + [element], c1)
  }

  function ParseTypeArgs(c: Cursor, args: seq<A.Type>): (r: Parsed<seq<A.Type>>)
    ensures Keeps(c, r)
    ensures r.Ok? ==> args < r.value
    decreases c.Left(), 3
  {
    var (arg, c1) :- ParseType(c);
    if !c1.Check(Comma) then Ok(args + [arg], c1)
    else
      var c2 := Advance(c1);
      if ClosesArgs(c2) then Ok(args + [arg], c2)
      else ParseTypeArgs(c2, args + [arg])
  }

  /** A type that may not leave half of a `>>` behind. */
  function ParseClosedType(c: Cursor): (r: Parsed<A.Type>)
    ensures Advances(c, r)
    decreases c.Left(), 3
  {
    var (t, c1) :- ParseType(c);
    if c1.bank > 0 then
      var c2 := c1.(bank := 0);
      Fail(if c2.Check(Greater) then Advance(c2) else c2.Report())
    else Ok(t, c1)
  }

  // ----- Patterns -----

  function LiteralKindOf(kind: Kind): A.LiteralKind {
    if kind == Integer then A.IntegerLiteral
    else if kind == Float then A.FloatLiteral
    else if kind == String then A.StringLiteral
    else if kind == Char then A.CharLiteral
    else A.BoolLiteral
  }

  function LiteralOf(t: Word): A.Literal {
    A.Literal(LiteralKindOf(t.kind), t.spelling)
  }

  /** A lone lower-case name binds a variable; every other path names a variant. */
  predicate IsBinding(path: A.Path) {
    |path| == 1 && path[0] != [] && (path[0][0] == '_' || 'a' <= path[0][0] <= 'z')
  }

  function ParsePattern(c: Cursor): (r: Parsed<A.Pattern>)
    ensures Advances(c, r)
    decreases c.Left(), 4
  {
    var (first, c1) :- ParsePrimaryPattern(c);
    if !c1.Check(Pipe) then Ok(first, c1)
    else
      var (rest, c2) :- ParseAlternatives(Advance(c1), []);
      Ok(A.OrPattern(first, rest), c2)
  }

  function ParseAlternatives(c: Cursor, rest: seq<A.Pattern>): (r: Parsed<seq<A.Pattern>>)
    ensures Keeps(c, r)
    decreases c.Left(), 4
  {
    var (alternative, c1) :- ParsePrimaryPattern(c);
    if c1.Check(Pipe) then ParseAlternatives(Advance(c1), rest + [alternative])
    else Ok(rest + [alternative], c1)
  }

  function ParsePrimaryPattern(c: Cursor): (r: Parsed<A.Pattern>)
    ensures Advances(c, r)
    decreases c.Left(), 3
  {
    var kind := c.Peek();
    if kind == Underscore then Ok(A.WildcardPattern, Advance(c))
    else if kind == Mut then
      var (name, c1) :- ParseIdent(Advance(c));
      Ok(A.MutIdentPattern(name), c1)
    else if IsLiteral(kind) then Ok(A.LiteralPattern(LiteralOf(c.ts.head)), Advance(c))
    else if kind == Minus then
      // The sign is read but not kept in the literal's spelling.
      var c1 := Advance(c);
      if c1.Peek() == Integer || c1.Peek() == Float then Ok(A.LiteralPattern(LiteralOf(c1.ts.head)), Advance(c1))
      else Fail(c1.Report())
    else if kind == Amp then
      var c1 := Advance(c);
      var isMut := c1.Check(Mut);
      var (inner, c2) :- ParsePrimaryPattern(if isMut then Advance(c1) else c1);
      Ok(A.RefPattern(isMut, inner), c2)
    else if kind == LParen then
      var (first, c1) :- ParsePattern(Advance(c));
      if !c1.Check(Comma) then
        var (_, c2) :- Expect(c1, RParen);
        Ok(first, c2)
      else
        var (elements, c2) :- ParseTuplePatterns(Advance(c1), [first]);
        var (_, c3) :- Expect(c2, RParen);
        Ok(A.TuplePattern(None, elements), c3)
    else ParsePathPattern(c)
  }

  function ParsePathPattern(c: Cursor): (r: Parsed<A.Pattern>)
    ensures Advances(c, r)
    decreases c.Left(), 2
  {
    var (path, c1) :- ParsePath(c, []);
    if IsBinding(path) then Ok(A.IdentPattern(path[0]), c1)
    else if c1.Check(LParen) then
      var (elements, c2) :- ParsePatternArgs(Advance(c1));
      Ok(A.TuplePattern(Some(path), elements), c2)
    else if c1.Check(LBrace) then
      var (fields, c2) :- ParseFieldPatterns(Advance(c1), []);
      var (_, c3) :- Expect(c2, RBrace);
      Ok(A.StructPattern(path, fields), c3)
    else Ok(A.TuplePattern(Some(path), []), c1)
  }

  function ParseTuplePatterns(c: Cursor, elements: seq<A.Pattern>): (r: Parsed<seq<A.Pattern>>)
    ensures Keeps(c, r)
    decreases c.Left(), 5
  {
    if c.Check(RParen) || c.AtEnd() then Ok(elements, c)
    else
      var (element, c1) :- ParsePattern(c);
      if c1.Check(Comma) then ParseTuplePatterns(Advance(c1), elements + [element])
      else Ok(elements + [element], c1)
  }

  /** Sub-patterns of a variant up to and with the closing parenthesis. */
  function ParsePatternArgs(c: Cursor): (r: Parsed<seq<A.Pattern>>)
    ensures Advances(c, r)
    decreases c.Left(), 6
  {
    if c.Check(RParen) then Ok([], Advance(c))
    else
      var (elements, c1) :- ParsePatternList(c, []);
      var (_, c2) :- Expect(c1, RParen);
      Ok(elements, c2)
  }

  function ParsePatternList(c: Cursor, elements: seq<A.Pattern>): (r: Parsed<seq<A.Pattern>>)
    ensures Keeps(c, r)
    decreases c.Left(), 5
  {
    var (element, c1) :- ParsePattern(c);
    if !c1.Check(Comma) then Ok(elements + [element], c1)
    else
      var c2 := Advance(c1);
      if c2.Check(RParen) then Ok(elements + [element], c2)
      else ParsePatternList(c2, elements + [element])
  }

  function ParseFieldPatterns(c: Cursor, fields: seq<A.FieldPattern>): (r: Parsed<seq<A.FieldPattern>>)
    ensures Keeps(c, r)
    decreases c.Left(), 5
  {
    if c.Check(RBrace) || c.AtEnd() then Ok(fields, c)
    else
      var (name, c1) :- ParseIdent(c);
      if c1.Check(Colon) then
        var (sub, c2) :- ParsePattern(Advance(c1));
        var fields' := fields + [A.FieldPattern(name, sub)];
        if c2.Check(Comma) then ParseFieldPatterns(Advance(c2), fields') else Ok(fields', c2)
      else
        // A bare field name binds a variable of the same name.
        var fields' := fields + [A.FieldPattern(name, A.IdentPattern(name))];
        if c1.Check(Comma) then ParseFieldPatterns(Advance(c1), fields') else Ok(fields', c1)
  }

  // ----- Expressions: the precedence ladder -----

  /** The rungs of the ladder, loosest first. */
  const OR := 0
  const AND := 1
  const CMP := 2
  const BIT_OR := 3
  const BIT_XOR := 4
  const BIT_AND := 5
  const SHIFT := 6
  const ADD := 7
  const MUL := 8
  const POW := 9
  const CAST := 10
  const UNARY := 11
  const POSTFIX := 12

  /** The operator a token stands for on a rung of binary operators. */
  function OpAt(level: nat, kind: Kind): Option<A.BinaryOp> {
    match level
    case 0 => if kind == PipePipe then Some(A.Or) else None
    case 1 => if kind == AmpAmp then Some(A.And) else None
    case 2 =>
      if kind == EqEq then Some(A.Eq)
      else if kind == BangEq then Some(A.NotEq)
      else if kind == Greater then Some(A.Gt)
      else if kind == Less then Some(A.Lt)
      else if kind == GreaterEq then Some(A.GtEq)
      else if kind == LessEq then Some(A.LtEq)
      else None
    case 3 => if kind == Pipe then Some(A.BitOr) else None
    case 4 => if kind == Caret then Some(A.BitXor) else None
    case 5 => if kind == Amp then Some(A.BitAnd) else None
    case 6 => if kind == LessLess then Some(A.Shl) else if kind == GreaterGreater then Some(A.Shr) else None
    case 7 => if kind == Plus then Some(A.Add) else if kind == Minus then Some(A.Sub) else None
    case 8 =>
      if kind == Star then Some(A.Mul)
      else if kind == Slash then Some(A.Div)
      else if kind == Percent then Some(A.Mod)
      else None
    case _ => None
  }

  function ParseExpr(c: Cursor): (r: Parsed<A.Expr>)
    ensures Advances(c, r)
    decreases c.Left(), 31
  {
    ParseRange(c)
  }

  predicate IsRangeOp(kind: Kind) {
    kind == DotDot || kind == DotDotEq || kind == DotDotLess
  }

  /** After a range operator, the tokens that mean there is no end bound. */
  predicate EndsRange(c: Cursor) {
    c.AtEnd() || IsCloser(c.Peek()) || c.Peek() == Comma || c.Peek() == Semicolon
  }

  function ParseRange(c: Cursor): (r: Parsed<A.Expr>)
    ensures Advances(c, r)
    decreases c.Left(), 30
  {
    if IsRangeOp(c.Peek()) then ParseRangeEnd(c, None)
    else
      var (lhs, c1) :- ParseBinary(OR, c);
      if IsRangeOp(c1.Peek()) then ParseRangeEnd(c1, Some(lhs)) else Ok(lhs, c1)
  }

  function ParseRangeEnd(c: Cursor, start: Option<A.Expr>): (r: Parsed<A.Expr>)
    requires IsRangeOp(c.Peek())
    ensures Advances(c, r)
    decreases c.Left(), 0
  {
    var inclusive := c.Peek() == DotDotEq;
    var c1 := Advance(c);
    if c.Peek() == DotDot || EndsRange(c1) then Ok(A.RangeExpr(start, None, inclusive), c1)
    else
      var (end, c2) :- ParseBinary(OR, c1);
      Ok(A.RangeExpr(start, Some(end), inclusive), c2)
  }

  /** The rungs of binary operators: comparison does not chain, the others associate to
      the left, and the rung above them all is the power operator. */
  function ParseBinary(level: nat, c: Cursor): (r: Parsed<A.Expr>)
    requires level <= POW
    ensures Advances(c, r)
    decreases c.Left(), 29 - level
  {
    if level == POW then ParsePow(c)
    else
      var (lhs, c1) :- ParseBinary(level + 1, c);
      if level != CMP then ParseBinaryRest(level, lhs, c1)
      else
        match OpAt(CMP, c1.Peek())
        case None => Ok(lhs, c1)
        case Some(op) =>
          var (rhs, c2) :- ParseBinary(BIT_OR, Advance(c1));
          Ok(A.BinaryExpr(op, lhs, rhs), c2)
  }

  function ParseBinaryRest(level: nat, lhs: A.Expr, c: Cursor): (r: Parsed<A.Expr>)
    requires level < POW && level != CMP
    ensures Keeps(c, r)
    decreases c.Left(), 29
  {
    match OpAt(level, c.Peek())
    case None => Ok(lhs, c)
    case Some(op) =>
      var (rhs, c1) :- ParseBinary(level + 1, Advance(c));
      ParseBinaryRest(level, A.BinaryExpr(op, lhs, rhs), c1)
  }

  function ParsePow(c: Cursor): (r: Parsed<A.Expr>)
    ensures Advances(c, r)
    decreases c.Left(), 19
  {
    var (lhs, c1) :- ParseCast(c);
    if !c1.Check(StarStar) then Ok(lhs, c1)
    else
      var (rhs, c2) :- ParsePow(Advance(c1));
      Ok(A.BinaryExpr(A.Pow, lhs, rhs), c2)
  }

  function ParseCast(c: Cursor): (r: Parsed<A.Expr>)
    ensures Advances(c, r)
    decreases c.Left(), 18
  {
    var (inner, c1) :- ParseUnary(c);
    if !c1.Check(As) then Ok(inner, c1)
    else
      var (target, c2) :- ParseClosedType(Advance(c1));
      Ok(A.CastExpr(inner, target), c2)
  }

  function UnaryOpOf(kind: Kind): Option<A.UnaryOp> {
    if kind == Minus then Some(A.Neg)
    else if kind == Bang then Some(A.Not)
    else if kind == Tilde then Some(A.BitNot)
    else None
  }

  function ParseUnary(c: Cursor): (r: Parsed<A.Expr>)
    ensures Advances(c, r)
    decreases c.Left(), 17
  {
    if c.Peek() == Amp then ParseBorrow(c)
    else if UnaryOpOf(c.Peek()).Some? then
      var (inner, c1) :- ParseUnary(Advance(c));
      Ok(A.UnaryExpr(UnaryOpOf(c.Peek()).value, inner), c1)
    else ParsePostfix(c)
  }

  function ParseBorrow(c: Cursor): (r: Parsed<A.Expr>)
    requires c.Peek() == Amp
    ensures Advances(c, r)
    decreases c.Left(), 0
  {
    var c1 := Advance(c);
    var isMut := c1.Check(Mut);
    var (inner, c2) :- ParseUnary(if isMut then Advance(c1) else c1);
    Ok(A.BorrowExpr(isMut, inner), c2)
  }

  function ParsePostfix(c: Cursor): (r: Parsed<A.Expr>)
    ensures Advances(c, r)
    decreases c.Left(), 16
  {
    var (receiver, c1) :- ParsePrimary(c);
    ParsePostfixRest(receiver, c1)
  }

  function ParsePostfixRest(receiver: A.Expr, c: Cursor): (r: Parsed<A.Expr>)
    ensures Keeps(c, r)
    decreases c.Left(), 16
  {
    if c.Check(LParen) then
      var (args, c1) :- ParseArgs(Advance(c));
      ParsePostfixRest(A.CallExpr(receiver, args), c1)
    else if c.Check(Dot) then
      var c1 := Advance(c);
      if c1.Peek() == Integer then
        ParsePostfixRest(A.FieldExpr(receiver, c1.ts.head.spelling), Advance(c1))
      else
        var (member, c2) :- ParseNamedMember(receiver, c1);
        ParsePostfixRest(member, c2)
    else if c.Check(LBracket) then
      var (index, c1) :- ParseExpr(Advance(c));
      var (_, c2) :- Expect(c1, RBracket);
      ParsePostfixRest(A.IndexExpr(receiver, index), c2)
    else if c.Check(Question) then ParsePostfixRest(A.QuestionExpr(receiver), Advance(c))
    else Ok(receiver, c)
  }

  /** A named field or a method call, after its dot. */
  function ParseNamedMember(receiver: A.Expr, c: Cursor): (r: Parsed<A.Expr>)
    ensures Advances(c, r)
    decreases c.Left(), 0
  {
    var (name, c1) :- ParseIdent(c);
    if c1.Check(LParen) then
      var (args, c2) :- ParseArgs(Advance(c1));
      Ok(A.MethodCallExpr(receiver, name, args), c2)
    else Ok(A.FieldExpr(receiver, name), c1)
  }

  /** Call arguments up to and with the closing parenthesis. */
  function ParseArgs(c: Cursor): (r: Parsed<seq<A.Expr>>)
    ensures Advances(c, r)
    decreases c.Left(), 33
  {
    if c.Check(RParen) then Ok([], Advance(c))
    else
      var (args, c1) :- ParseArgList(c, []);
      var (_, c2) :- Expect(c1, RParen);
      Ok(args, c2)
  }

  function ParseArgList(c: Cursor, args: seq<A.Expr>): (r: Parsed<seq<A.Expr>>)
    ensures Keeps(c, r)
    decreases c.Left(), 32
  {
    var (arg, c1) :- ParseExpr(c);
    if !c1.Check(Comma) then Ok(args + [arg], c1)
    else
      var c2 := Advance(c1);
      if c2.Check(RParen) then Ok(args + [arg], c2)
      else ParseArgList(c2, args + [arg])
  }

  function ParsePrimary(c: Cursor): (r: Parsed<A.Expr>)
    ensures Advances(c, r)
    decreases c.Left(), 15
  {
    var kind := c.Peek();
    if IsLiteral(kind) then Ok(A.LiteralExpr(LiteralOf(c.ts.head)), Advance(c))
    else if kind == LParen then ParseParenthesized(c)
    else if kind == LBrace then
      var (block, c1) :- ParseBlock(c);
      Ok(A.BlockExpr(block), c1)
    else if kind == If then ParseIf(c)
    else if kind == Match then ParseMatch(c)
    else if kind == Loop then
      var (body, c1) :- ParseBlock(Advance(c));
      Ok(A.LoopExpr(body), c1)
    else if kind == While then
      var (cond, c1) :- ParseCond(Advance(c));
      var (body, c2) :- ParseBlock(c1);
      Ok(A.WhileExpr(cond, body), c2)
    else if kind == Ret then ParseReturn(c)
    else if kind == Break then Ok(A.BreakExpr, Advance(c))
    else if kind == Continue then Ok(A.ContinueExpr, Advance(c))
    else ParsePathExpr(c)
  }

  /** A parenthesized expression or a tuple. */
  function ParseParenthesized(c: Cursor): (r: Parsed<A.Expr>)
    requires c.Peek() == LParen
    ensures Advances(c, r)
    decreases c.Left(), 0
  {
    var (first, c1) :- ParseExpr(Advance(c));
    if !c1.Check(Comma) then
      var (_, c2) :- Expect(c1, RParen);
      Ok(first, c2)
    else
      var (elements, c2) :- ParseTuple(Advance(c1), [first]);
      var (_, c3) :- Expect(c2, RParen);
      Ok(A.TupleExpr(elements), c3)
  }

  function ParseReturn(c: Cursor): (r: Parsed<A.Expr>)
    requires c.Peek() == Ret
    ensures Advances(c, r)
    decreases c.Left(), 0
  {
    var c1 := Advance(c);
    if c1.Check(Semicolon) || c1.Check(RBrace) || c1.AtEnd() then Ok(A.ReturnExpr(None), c1)
    else
      var (result, c2) :- ParseExpr(c1);
      Ok(A.ReturnExpr(Some(result)), c2)
  }

  /** A path, a call of one, or a struct literal where one may start. */
  function ParsePathExpr(c: Cursor): (r: Parsed<A.Expr>)
    ensures Advances(c, r)
    decreases c.Left(), 14
  {
    var (path, c1) :- ParsePath(c, []);
    if c1.Check(LParen) then
      var (args, c2) :- ParseArgs(Advance(c1));
      Ok(A.CallExpr(A.PathExpr(path), args), c2)
    else if c1.lit && c1.Check(LBrace) then
      ParseStructLiteral(path, Advance(c1))
    else Ok(A.PathExpr(path), c1)
  }

  /** A struct literal after its opening brace. */
  function ParseStructLiteral(path: A.Path, c: Cursor): (r: Parsed<A.Expr>)
    ensures Advances(c, r)
    decreases c.Left(), 34
  {
    var (parts, c1) :- ParseInits(c, []);
    var (init, base0) := parts;
    var (base, c2) :- ParseLateBase(base0, c1);
    var (_, c3) :- Expect(c2, RBrace);
    Ok(A.StructExpr(path, init, base), c3)
  }

  /** Field initializers, ended by a `..base`, a missing comma or the closing brace. */
  function ParseInits(c: Cursor, init: seq<A.FieldInit>): (r: Parsed<(seq<A.FieldInit>, Option<A.Expr>)>)
    ensures Keeps(c, r)
    decreases c.Left(), 33
  {
    if c.Check(RBrace) || c.AtEnd() then Ok((init, None), c)
    else if c.Check(DotDot) then
      var (base, c1) :- ParseExpr(Advance(c));
      Ok((init, Some(base)), c1)
    else
      var (field, c1) :- ParseInit(c);
      if c1.Check(Comma) then ParseInits(Advance(c1), init + [field]) else Ok((init + [field], None), c1)
  }

  function ParseInit(c: Cursor): (r: Parsed<A.FieldInit>)
    ensures Advances(c, r)
    decreases c.Left(), 32
  {
    var (name, c1) :- ParseIdent(c);
    var (_, c2) :- Expect(c1, Colon);
    var (value, c3) :- ParseExpr(c2);
    Ok(A.FieldInit(name, value), c3)
  }

  /** A `..base` that follows the last field without a comma. */
  function ParseLateBase(base: Option<A.Expr>, c: Cursor): (r: Parsed<Option<A.Expr>>)
    ensures Keeps(c, r)
    decreases c.Left(), 32
  {
    if base.None? && c.Check(DotDot) then
      var (late, c1) :- ParseExpr(Advance(c));
      Ok(Some(late), c1)
    else Ok(base, c)
  }

  function ParseTuple(c: Cursor, elements: seq<A.Expr>): (r: Parsed<seq<A.Expr>>)
    ensures Keeps(c, r)
    decreases c.Left(), 32
  {
    if c.Check(RParen) || c.AtEnd() then Ok(elements, c)
    else
      var (element, c1) :- ParseExpr(c);
      if c1.Check(Comma) then ParseTuple(Advance(c1), elements + [element])
      else Ok(elements + [element], c1)
  }

  /** An expression before a block, where `{` must not start a struct literal. */
  function ParseHeadExpr(c: Cursor): (r: Parsed<A.Expr>)
    ensures Advances(c, r)
    decreases c.Left(), 32
  {
    match ParseExpr(c.(lit := false))
    case Ok(e, c1) => Ok(e, c1.(lit := c.lit))
    case Fail(c1) => Fail(c1.(lit := c.lit))
  }

  function ParseCond(c: Cursor): (r: Parsed<A.Cond>)
    ensures Advances(c, r)
    decreases c.Left(), 33
  {
    if ScanLead(c.ts, 0) != DeclLead then
      var (value, c1) :- ParseHeadExpr(c);
      Ok(A.ExprCond(value), c1)
    else
      var (pattern, c1) :- ParsePattern(c);
      var (_, c2) :- Expect(c1, ColonEq);
      var (init, c3) :- ParseExpr(c2);
      Ok(A.PatternCond(pattern, init), c3)
  }

  function ParseIf(c: Cursor): (r: Parsed<A.Expr>)
    requires c.Peek() == If
    ensures Advances(c, r)
    decreases c.Left(), 0
  {
    var (cond, c1) :- ParseCond(Advance(c));
    var (thenBlock, c2) :- ParseBlock(c1);
    if !c2.Check(Else) then Ok(A.IfExpr(cond, thenBlock, None), c2)
    else
      var (elseBlock, c3) :- ParseBlock(Advance(c2));
      Ok(A.IfExpr(cond, thenBlock, Some(elseBlock)), c3)
  }

  function ParseMatch(c: Cursor): (r: Parsed<A.Expr>)
    requires c.Peek() == Match
    ensures Advances(c, r)
    decreases c.Left(), 0
  {
    var (scrutinee, c1) :- ParseHeadExpr(Advance(c));
    var (_, c2) :- Expect(c1, LBrace);
    var (arms, c3) := ParseArms(c2, []);
    var (_, c4) :- Expect(c3, RBrace);
    Ok(A.MatchExpr(scrutinee, arms), c4)
  }

  /** Recovering loops end at their closing brace or at the end of the file. */
  predicate LoopEnds(c: Cursor) {
    c.Check(RBrace) || c.AtEnd()
  }

  function AtEndRank(c: Cursor): nat {
    if c.AtEnd() then 0 else 1
  }

  /** Match arms; an arm that does not parse is dropped after recovery. */
  function ParseArms(c: Cursor, arms: seq<A.MatchArm>): (r: (seq<A.MatchArm>, Cursor))
    ensures r.1.Left() <= c.Left() && r.1.lit == c.lit && Due(c) <= Due(r.1) && LoopEnds(r.1) && (FromText(c.ts) ==> FromText(r.1.ts))
    decreases c.Left(), 40 + AtEndRank(c)
  {
    if LoopEnds(c) then (arms, c)
    else if c.Check(Comma) || c.Check(Semicolon) then ParseArms(Advance(c), arms)
    else
      match ParseArm(c)
      case Fail(c1) => ParseArms(Synchronize(c1), arms)
      case Ok(arm, c1) => ParseArms(c1, arms + [arm])
  }

  function ParseArm(c: Cursor): (r: Parsed<A.MatchArm>)
    ensures Advances(c, r)
    decreases c.Left(), 32
  {
    var (pattern, c1) :- ParsePattern(c);
    var (_, c2) :- Expect(c1, FatArrow);
    var (body, c3) :- ParseExpr(c2);
    Ok(A.MatchArm(pattern, body), c3)
  }

  // ----- Blocks and statements -----

  function ParseBlock(c: Cursor): (r: Parsed<A.Block>)
    ensures Advances(c, r)
    decreases c.Left(), 13
  {
    var (_, c1) :- Expect(c, LBrace);
    var (statements, value, c2) := ParseStmts(c1, []);
    var (_, c3) :- Expect(c2, RBrace);
    Ok(A.Block(statements, value), c3)
  }

  /** Statements up to the closing brace.  A last expression without a `;` is the
      block's value; a statement that does not parse is dropped after recovery. */
  function ParseStmts(c: Cursor, statements: seq<A.Stmt>): (r: (seq<A.Stmt>, Option<A.Expr>, Cursor))
    ensures r.2.Left() <= c.Left() && r.2.lit == c.lit && Due(c) <= Due(r.2) && LoopEnds(r.2) && (FromText(c.ts) ==> FromText(r.2.ts))
    decreases c.Left(), 40 + AtEndRank(c)
  {
    if LoopEnds(c) then (statements, None, c)
    else if c.Check(Semicolon) then ParseStmts(Advance(c), statements)
    else
      match ParseStmt(c)
      case Fail(c1) => ParseStmts(Synchronize(c1), statements)
      case Ok(stmt, c1) =>
        if stmt.ExprStmt? && LoopEnds(c1) then (statements, Some(stmt.value), c1)
        else ParseStmts(EndStmt(c1), statements + [stmt])
  }

  /** The `;` after a statement; without one, or a closing brace, recovery sets in. */
  function EndStmt(c: Cursor): (r: Cursor)
    ensures r.Left() <= c.Left() && r.lit == c.lit && Due(c) <= Due(r) && (FromText(c.ts) ==> FromText(r.ts))
  {
    if c.Check(Semicolon) then Advance(c)
    else if LoopEnds(c) then c
    else Synchronize(c.Report())
  }

  function ParseStmt(c: Cursor): (r: Parsed<A.Stmt>)
    ensures Advances(c, r)
    decreases c.Left(), 32
  {
    match ScanLead(c.ts, 0)
    case DeclLead =>
      var (pattern, c1) :- ParsePattern(c);
      var (ascription, c2) :- ParseAscription(c1);
      var (_, c3) :- Expect(c2, ColonEq);
      var (init, c4) :- ParseExpr(c3);
      Ok(A.DeclStmt(pattern, ascription, init), c4)
    case ReassignLead =>
      var (place, c1) :- ParseExpr(c);
      if c1.Check(Eq) then
        var (value, c2) :- ParseExpr(Advance(c1));
        Ok(A.ReassignStmt(place, None, value), c2)
      else if IsCompoundAssign(c1.Peek()) then
        var (value, c2) :- ParseExpr(Advance(c1));
        Ok(A.ReassignStmt(place, Some(CompoundOp(c1.Peek())), value), c2)
      else Fail(c1.Report())
    case NoLead =>
      var (value, c1) :- ParseExpr(c);
      Ok(A.ExprStmt(value), c1)
  }

  function ParseAscription(c: Cursor): (r: Parsed<Option<A.Type>>)
    ensures Keeps(c, r)
  {
    if !c.Check(Colon) then Ok(None, c)
    else
      var (t, c1) :- ParseClosedType(Advance(c));
      Ok(Some(t), c1)
  }

  // ----- Items -----

  function ParseItem(c: Cursor): (r: Parsed<A.Item>)
    ensures Keeps(c, r)
    ensures r.Ok? ==> r.c.Left() < c.Left()
    decreases c.Left(), 1
  {
    var isPub := c.Check(Pub);
    var c1 := if isPub then Advance(c) else c;
    var kind := c1.Peek();
    if kind == Fn then ParseFn(c1, isPub)
    else if kind == Mod then ParseMod(Advance(c1), isPub)
    else if kind == Static then
      var (v, c2) :- ParseValueItem(Advance(c1));
      Ok(A.StaticItem(isPub, v.0, v.1, v.2), c2)
    else if kind == Const then
      var (v, c2) :- ParseValueItem(Advance(c1));
      Ok(A.ConstItem(isPub, v.0, v.1, v.2), c2)
    else ParseFlatItem(c1, isPub)
  }

  /** The items that stand only on one level. */
  function ParseFlatItem(c: Cursor, isPub: bool): (r: Parsed<A.Item>)
    ensures Advances(c, r)
  {
    if c.Peek() == Impl then ParseImpl(Advance(c), isPub) else ParseBareItem(c, isPub)
  }

  /** The items without expressions. */
  function ParseBareItem(c: Cursor, isPub: bool): (r: Parsed<A.Item>)
    ensures Advances(c, r)
  {
    var kind := c.Peek();
    if kind == Struct then ParseStruct(Advance(c), isPub)
    else if kind == Enum then ParseEnum(Advance(c), isPub)
    else if kind == Use then ParseUse(Advance(c), isPub)
    else Fail(c.Report())
  }

  function ParseImpl(c: Cursor, isPub: bool): (r: Parsed<A.Item>)
    ensures Advances(c, r)
  {
    var (target, c1) :- ParseClosedType(c);
    var (_, c2) :- Expect(c1, LBrace);
    var (methods, c3) := ParseMethods(c2, []);
    var (_, c4) :- Expect(c3, RBrace);
    Ok(A.ImplItem(isPub, target, methods), c4)
  }

  /** A file module, or an inline module with its items. */
  function ParseMod(c: Cursor, isPub: bool): (r: Parsed<A.Item>)
    ensures Advances(c, r)
    decreases c.Left(), 0
  {
    var (name, c1) :- ParseIdent(c);
    if c1.Check(Semicolon) then Ok(A.ModItem(isPub, name, [], false), Advance(c1))
    else
      var (_, c2) :- Expect(c1, LBrace);
      var (items, c3) := ParseItems(c2, true, []);
      var (_, c4) :- Expect(c3, RBrace);
      Ok(A.ModItem(isPub, name, items, true), c4)
  }

  /** Items of a file, or of an inline module up to its brace; an item that does not
      parse is dropped after recovery. */
  function ParseItems(c: Cursor, inModule: bool, items: seq<A.Item>): (r: (seq<A.Item>, Cursor))
    ensures r.1.Left() <= c.Left() && r.1.lit == c.lit && Due(c) <= Due(r.1) && (FromText(c.ts) ==> FromText(r.1.ts))
    ensures if inModule then LoopEnds(r.1) else r.1.AtEnd()
    decreases c.Left(), 40 + AtEndRank(c)
  {
    if c.AtEnd() || (inModule && c.Check(RBrace)) then (items, c)
    else if c.Check(Semicolon) then ParseItems(Advance(c), inModule, items)
    else
      match ParseItem(c)
      case Fail(c1) => ParseItems(Synchronize(c1), inModule, items)
      case Ok(item, c1) => ParseItems(c1, inModule, items + [item])
  }

  function ParseMethods(c: Cursor, methods: seq<A.Item>): (r: (seq<A.Item>, Cursor))
    ensures r.1.Left() <= c.Left() && r.1.lit == c.lit && Due(c) <= Due(r.1) && LoopEnds(r.1) && (FromText(c.ts) ==> FromText(r.1.ts))
    decreases c.Left(), AtEndRank(c)
  {
    if LoopEnds(c) then (methods, c)
    else if c.Check(Semicolon) then ParseMethods(Advance(c), methods)
    else
      match ParseFn(c, false)
      case Fail(c1) => ParseMethods(Synchronize(c1), methods)
      case Ok(m, c1) => ParseMethods(c1, methods + [m])
  }

  function ParseFn(c: Cursor, isPub: bool): (r: Parsed<A.Item>)
    ensures Advances(c, r)
  {
    var (_, c1) :- Expect(c, Fn);
    var (name, c2) :- ParseIdent(c1);
    var (_, c3) :- Expect(c2, LParen);
    var (params, c4) :- ParseParams(c3);
    ParseFnRest(c4, isPub, name, params)
  }

  /** The return type and the body of a function. */
  function ParseFnRest(c: Cursor, isPub: bool, name: string, params: seq<A.FnParam>): (r: Parsed<A.Item>)
    ensures Advances(c, r)
  {
    var (returnType, c1) :- ParseReturnType(c);
    var (body, c2) :- ParseBlock(c1);
    Ok(A.FnItem(isPub, name, params, returnType, body), c2)
  }

  /** Parameters up to and with the closing parenthesis. */
  function ParseParams(c: Cursor): (r: Parsed<seq<A.FnParam>>)
    ensures Advances(c, r)
  {
    if c.Check(RParen) then Ok([], Advance(c))
    else
      var (params, c1) :- ParseParamList(c, []);
      var (_, c2) :- Expect(c1, RParen);
      Ok(params, c2)
  }

  function ParseParamList(c: Cursor, params: seq<A.FnParam>): (r: Parsed<seq<A.FnParam>>)
    ensures Keeps(c, r)
    decreases c.Left()
  {
    var (param, c1) :- ParseParam(c);
    if !c1.Check(Comma) then Ok(params + [param], c1)
    else
      var c2 := Advance(c1);
      if c2.Check(RParen) then Ok(params + [param], c2) else ParseParamList(c2, params + [param])
  }

  function ParseParam(c: Cursor): (r: Parsed<A.FnParam>)
    ensures Advances(c, r)
  {
    var (pattern, c1) :- ParsePattern(c);
    var (_, c2) :- Expect(c1, Colon);
    var (t, c3) :- ParseClosedType(c2);
    Ok(A.FnParam(pattern, t), c3)
  }

  function ParseReturnType(c: Cursor): (r: Parsed<Option<A.Type>>)
    ensures Keeps(c, r)
  {
    if !c.Check(Arrow) then Ok(None, c)
    else
      var (t, c1) :- ParseClosedType(Advance(c));
      Ok(Some(t), c1)
  }

  function ParseStruct(c: Cursor, isPub: bool): (r: Parsed<A.Item>)
    ensures Advances(c, r)
  {
    var (name, c1) :- ParseIdent(c);
    var (_, c2) :- Expect(c1, LBrace);
    var (fields, c3) :- ParseStructFields(c2, []);
    var (_, c4) :- Expect(c3, RBrace);
    Ok(A.StructItem(isPub, name, fields), c4)
  }

  function ParseStructFields(c: Cursor, fields: seq<A.StructField>): (r: Parsed<seq<A.StructField>>)
    ensures Keeps(c, r)
    decreases c.Left()
  {
    if LoopEnds(c) then Ok(fields, c)
    else
      var (field, c1) :- ParseStructField(c);
      if c1.Check(Comma) then ParseStructFields(Advance(c1), fields + [field]) else Ok(fields + [field], c1)
  }

  function ParseStructField(c: Cursor): (r: Parsed<A.StructField>)
    ensures Advances(c, r)
  {
    var (name, c1) :- ParseIdent(c);
    var (_, c2) :- Expect(c1, Colon);
    var (t, c3) :- ParseClosedType(c2);
    Ok(A.StructField(name, t), c3)
  }

  function ParseEnum(c: Cursor, isPub: bool): (r: Parsed<A.Item>)
    ensures Advances(c, r)
  {
    var (name, c1) :- ParseIdent(c);
    var (_, c2) :- Expect(c1, LBrace);
    var (variants, c3) :- ParseVariants(c2, []);
    var (_, c4) :- Expect(c3, RBrace);
    Ok(A.EnumItem(isPub, name, variants), c4)
  }

  function ParseVariants(c: Cursor, variants: seq<A.EnumVariant>): (r: Parsed<seq<A.EnumVariant>>)
    ensures Keeps(c, r)
    decreases c.Left()
  {
    if LoopEnds(c) then Ok(variants, c)
    else
      var (variant, c1) :- ParseVariant(c);
      if c1.Check(Comma) then ParseVariants(Advance(c1), variants + [variant]) else Ok(variants + [variant], c1)
  }

  function ParseVariant(c: Cursor): (r: Parsed<A.EnumVariant>)
    ensures Advances(c, r)
  {
    var (name, c1) :- ParseIdent(c);
    if !c1.Check(LParen) then Ok(A.EnumVariant(name, []), c1)
    else
      var (fields, c2) :- ParsePayload(Advance(c1));
      Ok(A.EnumVariant(name, fields), c2)
  }

  /** Payload types up to and with the closing parenthesis.  They are not closed: half of a
      `>>` can be left in the bank here. */
  function ParsePayload(c: Cursor): (r: Parsed<seq<A.Type>>)
    ensures Keeps(c, r)
  {
    if c.Check(RParen) then Ok([], Advance(c))
    else
      var (fields, c1) :- ParsePayloadTypes(c, []);
      var (_, c2) :- Expect(c1, RParen);
      Ok(fields, c2)
  }

  function ParsePayloadTypes(c: Cursor, fields: seq<A.Type>): (r: Parsed<seq<A.Type>>)
    ensures Keeps(c, r)
    ensures r.Ok? ==> fields < r.value
    decreases c.Left()
  {
    var (t, c1) :- ParseType(c);
    if !c1.Check(Comma) then Ok(fields + [t], c1)
    else
      var c2 := Advance(c1);
      if c2.Check(RParen) then Ok(fields + [t], c2) else ParsePayloadTypes(c2, fields + [t])
  }

  /** Name, type and initializer of a static or a constant. */
  function ParseValueItem(c: Cursor): (r: Parsed<(string, A.Type, A.Expr)>)
    ensures Advances(c, r)
  {
    var (field, c1) :- ParseStructField(c);
    var (_, c2) :- Expect(c1, Eq);
    var (init, c3) :- ParseExpr(c2);
    Ok((field.name, field.fieldType, init), c3)
  }

  function ParseUse(c: Cursor, isPub: bool): (r: Parsed<A.Item>)
    ensures Advances(c, r)
  {
    var (path, c1) :- ParsePath(c, []);
    if c1.Check(As) then
      var (alias, c2) :- ParseIdent(Advance(c1));
      var (_, c3) :- Expect(c2, Semicolon);
      Ok(A.UseItem(isPub, path, Some(alias)), c3)
    else
      var (_, c2) :- Expect(c1, Semicolon);
      Ok(A.UseItem(isPub, path, None), c2)
  }

  /** A whole file, from its first significant token to the end. */
  function ParseFile(tokens: TokenList): (r: (seq<A.Item>, Cursor))
    ensures r.1.AtEnd() && Reserved(Words(tokens, 0)) + ReservedAhead(tokens, 0) <= r.1.diags
  {
    ParseItems(Cursor(Words(tokens, 0), 0, true, ReservedAhead(tokens, 0)), false, [])
  }
}
