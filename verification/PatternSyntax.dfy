/** Printing patterns as words.  A minus sign in front of a literal is the one thing the tree
    does not keep. */
module PatternSyntax {
  import opened Options
  import opened Tokens
  import opened Grammar
  import opened TypeSyntax
  import A = Ast

  const UNDERSCORE := Word(Underscore, "_", 0)
  const PIPE := Word(Pipe, "|", 0)

  function LiteralWord(l: A.Literal): Word {
    var kind :=
      match l.kind
      case IntegerLiteral => Integer
      case FloatLiteral => Float
      case StringLiteral => String
      case CharLiteral => Char
      case BoolLiteral => if l.spelling == "true" then True else False;
    Word(kind, l.spelling, 0)
  }

  // ----- Printing -----

  /** A whole pattern; alternatives need no parentheses. */
  function Print(p: A.Pattern, k: Stream): Stream
    decreases p, 1
  {
    match p
    case OrPattern(first, rest) => PrintAlternative(first, PrintRest(rest, k))
    case _ => Bare(p, k)
  }

  /** One alternative. */
  function PrintAlternative(p: A.Pattern, k: Stream): Stream
    decreases p, 3
  {
    if p.OrPattern? then InParens(p, k) else Bare(p, k)
  }

  /** What a reference refers to: `&(mut x)` is not `&mut x`. */
  function PrintReferred(isMut: bool, p: A.Pattern, k: Stream): Stream
    decreases p, 3
  {
    if p.OrPattern? || (!isMut && p.MutIdentPattern?) then InParens(p, k) else Bare(p, k)
  }

  function InParens(p: A.Pattern, k: Stream): Stream
    decreases p, 2
  {
    More(LPAREN, Print(p, More(RPAREN, k)))
  }

  function PrintRest(ps: seq<A.Pattern>, k: Stream): Stream
    decreases ps, 0
  {
    if ps == [] then k else More(PIPE, PrintAlternative(ps[0], PrintRest(ps[1..], k)))
  }

  /** Anything but alternatives. */
  function Bare(p: A.Pattern, k: Stream): Stream
    decreases p, 0
  {
    match p
    case WildcardPattern => More(UNDERSCORE, k)
    case IdentPattern(name) => More(SegmentWord(name), k)
    case MutIdentPattern(name) => More(MUT, More(Word(Ident, name, 0), k))
    case LiteralPattern(value) => More(LiteralWord(value), k)
    case TuplePattern(None, elements) =>
      More(LPAREN, if elements == [] then More(RPAREN, k)
                   else Print(elements[0], More(COMMA, PrintList(elements[1..], More(RPAREN, k)))))
    case TuplePattern(Some(path), elements) =>
      PrintPath(path, More(LPAREN, PrintList(elements, More(RPAREN, k))))
    case StructPattern(path, fields) =>
      PrintPath(path, More(LBRACE, PrintFields(fields, More(RBRACE, k))))
    case RefPattern(isMut, inner) =>
      More(AMP, if isMut then More(MUT, PrintReferred(true, inner, k)) else PrintReferred(false, inner, k))
    case OrPattern(_, _) => k
  }

  function PrintList(ps: seq<A.Pattern>, k: Stream): Stream
    decreases ps, 0
  {
    if ps == [] then k
    else Print(ps[0], if |ps| == 1 then k else More(COMMA, PrintList(ps[1..], k)))
  }

  /** A field that binds a variable of its own name is printed by that name alone. */
  predicate IsShort(f: A.FieldPattern) {
    f.pattern == A.IdentPattern(f.name)
  }

  function PrintField(f: A.FieldPattern, k: Stream): Stream
    decreases f, 0
  {
    More(Word(Ident, f.name, 0), if IsShort(f) then k else More(COLON, Print(f.pattern, k)))
  }

  function PrintFields(fields: seq<A.FieldPattern>, k: Stream): Stream
    decreases fields, 0
  {
    if fields == [] then k
    else PrintField(fields[0], if |fields| == 1 then k else More(COMMA, PrintFields(fields[1..], k)))
  }

  /** What the parser builds: names that bind variables are told from paths that name
      variants by their first letter, except for the short form of a field. */
  predicate IsPattern(p: A.Pattern)
    decreases p
  {
    match p
    case IdentPattern(name) => IsBinding([name])
    case TuplePattern(head, elements) =>
      && (if head.None? then elements != [] else head.value != [] && !IsBinding(head.value))
      && forall q <- elements :: IsPattern(q)
    case StructPattern(path, fields) => path != [] && !IsBinding(path) && forall f <- fields :: IsShort(f) || IsPattern(f.pattern)
    case RefPattern(_, inner) => IsPattern(inner)
    case OrPattern(first, rest) => IsPattern(first) && rest != [] && forall q <- rest :: IsPattern(q)
    case _ => true
  }

  /** Is there a struct pattern's brace outside all parentheses? */
  predicate ShowsBrace(p: A.Pattern)
    decreases p
  {
    match p
    case StructPattern(_, _) => true
    case RefPattern(isMut, inner) => !(inner.OrPattern? || (!isMut && inner.MutIdentPattern?)) && ShowsBrace(inner)
    case OrPattern(first, rest) =>
      || (!first.OrPattern? && ShowsBrace(first))
      || exists q <- rest :: !q.OrPattern? && ShowsBrace(q)
    case _ => false
  }

  predicate AlternativeShows(p: A.Pattern) {
    !p.OrPattern? && ShowsBrace(p)
  }
}
