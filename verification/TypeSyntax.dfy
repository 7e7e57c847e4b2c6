/** Printing types as words, and fusing their closing `>` words into `>>`. */
module TypeSyntax {
  import opened Options
  import opened Tokens
  import opened Grammar
  import A = Ast

  // ----- Printing: each printer puts its words in front of `k` -----

  /** The word a path segment is spelled by. */
  function SegmentWord(name: string): Word {
    var kind :=
      if name == "self" then Self
      else if name == "super" then Super
      else if name == "package" then Package
      else if name == "Self" then SelfType
      else Ident;
    Word(kind, name, 0)
  }

  const COLONS := Word(ColonColon, "::", 0)
  const LPAREN := Word(LParen, "(", 0)
  const RPAREN := Word(RParen, ")", 0)
  const COMMA := Word(Comma, ",", 0)
  const LESS := Word(Less, "<", 0)
  const GREATER := Word(Greater, ">", 0)
  const PAIR := Word(GreaterGreater, ">>", 0)
  const AMP := Word(Amp, "&", 0)
  const MUT := Word(Mut, "mut", 0)
  const BANG := Word(Bang, "!", 0)
  const STR := Word(Str, "str", 0)
  const LBRACE := Word(LBrace, "{", 0)
  const RBRACE := Word(RBrace, "}", 0)
  const COLON := Word(Colon, ":", 0)

  function PrintPath(path: A.Path, k: Stream): Stream {
    if path == [] then k
    else More(SegmentWord(path[0]), if |path| == 1 then k else More(COLONS, PrintPath(path[1..], k)))
  }

  function PrimitiveWord(p: A.PrimitiveKind): Word {
    match p
    case I8 => Word(I8, "i8", 0)
    case I16 => Word(I16, "i16", 0)
    case I32 => Word(I32, "i32", 0)
    case I64 => Word(I64, "i64", 0)
    case I128 => Word(I128, "i128", 0)
    case Isize => Word(Isize, "isize", 0)
    case U8 => Word(U8, "u8", 0)
    case U16 => Word(U16, "u16", 0)
    case U32 => Word(U32, "u32", 0)
    case U64 => Word(U64, "u64", 0)
    case U128 => Word(U128, "u128", 0)
    case Usize => Word(Usize, "usize", 0)
    case F32 => Word(F32, "f32", 0)
    case F64 => Word(F64, "f64", 0)
    case Bool => Word(Bool, "bool", 0)
  }

  function PrintType(t: A.Type, k: Stream): Stream
    decreases t, 1
  {
    match t
    case PrimitiveType(p) => More(PrimitiveWord(p), k)
    case UnitType => More(LPAREN, More(RPAREN, k))
    case NeverType => More(BANG, k)
    case StrType => More(STR, k)
    case RefType(isMut, inner) =>
      More(AMP, if isMut then More(MUT, PrintType(inner, k)) else PrintType(inner, k))
    case TupleType(elements) =>
      More(LPAREN, if |elements| == 1 then PrintType(elements[0], More(COMMA, More(RPAREN, k)))
                   else PrintTypes(elements, More(RPAREN, k)))
    case PathType(path, args) =>
      PrintPath(path, if args == [] then k else More(LESS, PrintTypes(args, More(GREATER, k))))
  }

  function PrintTypes(ts: seq<A.Type>, k: Stream): Stream
    decreases ts, 1
  {
    if ts == [] then k else PrintType(ts[0], AfterFirst(ts, k))
  }

  /** What stands behind the first of a list of types. */
  function AfterFirst(ts: seq<A.Type>, k: Stream): Stream
    requires ts != []
    decreases ts, 0
  {
    if |ts| == 1 then k else More(COMMA, PrintTypes(ts[1..], k))
  }

  /** What the parser can build: tuples have an element, paths a segment. */
  predicate IsType(t: A.Type)
    decreases t
  {
    match t
    case RefType(_, inner) => IsType(inner)
    case TupleType(elements) => elements != [] && forall u <- elements :: IsType(u)
    case PathType(path, args) => path != [] && forall u <- args :: IsType(u)
    case _ => true
  }

  /** Does the last word of the type tell that it is over? */
  predicate IsDelimited(t: A.Type) {
    match t
    case RefType(_, inner) => IsDelimited(inner)
    case PathType(_, args) => args != []
    case _ => true
  }

  // ----- Fusing -----

  /** `s` is `p` with some adjacent pairs of `>` fused, none of them starting in the last
      `w` words of `p`. */
  ghost predicate Fused(p: Stream, s: Stream, w: nat)
    decreases p
  {
    if Length(p) <= w then p == s
    else
      && s.More?
      && if s.head == PAIR && p.head == GREATER then
           p.tail.More? && p.tail.head == GREATER && Fused(p.tail.tail, s.tail, w)
         else
           s.head == p.head && Fused(p.tail, s.tail, w)
  }

  /** Whether some fused pair stands right before a comma, and whether one takes a `>` from
      the last `w` words. */
  datatype Damage = Damage(comma: bool, across: bool)

  const INTACT := Damage(false, false)

  predicate CommaNext(s: Stream) { s.More? && s.head.kind == Comma }

  ghost function Harm(p: Stream, s: Stream, w: nat): Damage
    requires Fused(p, s, w)
    decreases p, 0
  {
    if Length(p) <= w then Damage(false, Length(p) < w)
    else if s.head == PAIR && p.head == GREATER then PairHarm(p.tail.tail, s.tail, w)
    else Harm(p.tail, s.tail, w)
  }

  /** The harm from a pair right before `p` on. */
  ghost function PairHarm(p: Stream, s: Stream, w: nat): Damage
    requires Fused(p, s, w)
    decreases p, 1
  {
    var later := Harm(p, s, w);
    Damage(CommaNext(s) || later.comma, later.across)
  }

  /** Without fusing nothing is harmed. */
  lemma {:induction false} UnfusedIsIntact(p: Stream, w: nat)
    requires w <= Length(p)
    ensures Fused(p, p, w) && Harm(p, p, w) == INTACT
  {
    if Length(p) > w { UnfusedIsIntact(p.tail, w); }
  }

  lemma {:induction false} FusedIsShorter(p: Stream, s: Stream, w: nat)
    requires Fused(p, s, w)
    ensures Length(s) <= Length(p)
    decreases p
  {
    if Length(p) > w {
      if s.head == PAIR && p.head == GREATER { FusedIsShorter(p.tail.tail, s.tail, w); }
      else { FusedIsShorter(p.tail, s.tail, w); }
    }
  }

  // ----- How printed types begin -----

  predicate StartsType(kind: Kind) {
    kind == LParen || kind == Bang || kind == Amp || kind == Str || PrimitiveOf(kind).Some? || IsPathSegment(kind)
  }

  lemma TypeHead(t: A.Type, k: Stream)
    requires IsType(t)
    ensures PrintType(t, k).More? && StartsType(PrintType(t, k).head.kind)
  {
  }

  // ----- Printing only adds words -----

  lemma {:induction false} PathPrintsMore(path: A.Path, k: Stream)
    ensures Length(k) <= Length(PrintPath(path, k))
  {
    if path != [] { PathPrintsMore(path[1..], k); }
  }

  lemma {:induction false} TypePrintsMore(t: A.Type, k: Stream)
    ensures Length(k) <= Length(PrintType(t, k))
    decreases t, 1
  {
    match t
    case RefType(_, inner) => TypePrintsMore(inner, k);
    case TupleType(elements) =>
      TypesPrintMore(elements, More(RPAREN, k));
      if |elements| == 1 { TypePrintsMore(elements[0], More(COMMA, More(RPAREN, k))); }
    case PathType(path, args) =>
      TypesPrintMore(args, More(GREATER, k));
      PathPrintsMore(path, if args == [] then k else More(LESS, PrintTypes(args, More(GREATER, k))));
    case _ =>
  }

  lemma {:induction false} TypesPrintMore(ts: seq<A.Type>, k: Stream)
    ensures Length(k) <= Length(PrintTypes(ts, k))
    ensures ts != [] ==> Length(k) <= Length(AfterFirst(ts, k))
    decreases ts, 0
  {
    if ts != [] {
      TypesPrintMore(ts[1..], k);
      TypePrintsMore(ts[0], AfterFirst(ts, k));
    }
  }
}
