/** Token kinds, shared by the lexer and the parser. */
module Tokens {
  /** The kinds, numbered and named as in the source's enumeration.  They are numbers and not
      constructors because there are over a hundred of them: telling constructors apart would
      take up most of each proof about the parser. */
  newtype Kind = k: int | 0 <= k < 113

  // Declarations.
  const Fn: Kind := 0
  const Struct: Kind := 1
  const Enum: Kind := 2
  const Mod: Kind := 3
  const Impl: Kind := 4
  const Static: Kind := 5
  const Pub: Kind := 6
  const Const: Kind := 7
  const Mut: Kind := 8
  const Use: Kind := 9

  // Control flow.
  const If: Kind := 10
  const Else: Kind := 11
  const Loop: Kind := 12
  const While: Kind := 13
  const Break: Kind := 14
  const Continue: Kind := 15
  const Ret: Kind := 16
  const Match: Kind := 17

  // Paths and casts.
  const Package: Kind := 18
  const Self: Kind := 19
  const Super: Kind := 20
  const SelfType: Kind := 21
  const As: Kind := 22

  // Primitive types.
  const I8: Kind := 23
  const I16: Kind := 24
  const I32: Kind := 25
  const I64: Kind := 26
  const I128: Kind := 27
  const Isize: Kind := 28
  const U8: Kind := 29
  const U16: Kind := 30
  const U32: Kind := 31
  const U64: Kind := 32
  const U128: Kind := 33
  const Usize: Kind := 34
  const F32: Kind := 35
  const F64: Kind := 36
  const Bool: Kind := 37
  const Str: Kind := 38

  // Reserved words.
  const Async: Kind := 39
  const Await: Kind := 40
  const Union: Kind := 41
  const Register: Kind := 42
  const Comp: Kind := 43
  const Extern: Kind := 44
  const Unsafe: Kind := 45
  const For: Kind := 46
  const In: Kind := 47
  const Where: Kind := 48
  const Dyn: Kind := 49

  // Literals.
  const Integer: Kind := 50
  const Float: Kind := 51
  const String: Kind := 52
  const Char: Kind := 53
  const True: Kind := 54
  const False: Kind := 55

  // Operators.
  const Plus: Kind := 56
  const Minus: Kind := 57
  const Star: Kind := 58
  const Slash: Kind := 59
  const Percent: Kind := 60
  const StarStar: Kind := 61
  const Amp: Kind := 62
  const Pipe: Kind := 63
  const Caret: Kind := 64
  const Tilde: Kind := 65
  const LessLess: Kind := 66
  const GreaterGreater: Kind := 67
  const PlusEq: Kind := 68
  const MinusEq: Kind := 69
  const StarEq: Kind := 70
  const SlashEq: Kind := 71
  const PercentEq: Kind := 72
  const StarStarEq: Kind := 73
  const AmpEq: Kind := 74
  const PipeEq: Kind := 75
  const CaretEq: Kind := 76
  const LessLessEq: Kind := 77
  const GreaterGreaterEq: Kind := 78
  const ColonEq: Kind := 79
  const Eq: Kind := 80
  const EqEq: Kind := 81
  const Bang: Kind := 82
  const AmpAmp: Kind := 83
  const PipePipe: Kind := 84
  const BangEq: Kind := 85
  const Greater: Kind := 86
  const Less: Kind := 87
  const GreaterEq: Kind := 88
  const LessEq: Kind := 89
  const Arrow: Kind := 90
  const FatArrow: Kind := 91
  const Colon: Kind := 92
  const ColonColon: Kind := 93
  const Comma: Kind := 94
  const Dot: Kind := 95
  const DotDot: Kind := 96
  const DotDotEq: Kind := 97
  const DotDotLess: Kind := 98

  // Delimiters.
  const LParen: Kind := 99
  const RParen: Kind := 100
  const LBrace: Kind := 101
  const RBrace: Kind := 102
  const LBracket: Kind := 103
  const RBracket: Kind := 104
  const Question: Kind := 105
  const Semicolon: Kind := 106
  const Hash: Kind := 107
  const Underscore: Kind := 108

  // Identifiers.
  const Ident: Kind := 109

  // Special.
  const DocComment: Kind := 110
  const Error: Kind := 111
  const Eof: Kind := 112

  /** A token: its kind and the source text it covers. */
  datatype Token = Token(kind: Kind, spelling: string)

  predicate IsReserved(kind: Kind) {
    || kind == Async || kind == Await || kind == Union || kind == Register || kind == Comp || kind == Extern
    || kind == Unsafe || kind == For || kind == In || kind == Where || kind == Dyn
  }

  /** Tokens the parser's cursor never rests on. */
  predicate IsInsignificant(kind: Kind) {
    kind == Error || kind == DocComment || IsReserved(kind)
  }

  predicate IsPathSegment(kind: Kind) {
    kind == Ident || kind == Self || kind == Super || kind == Package || kind == SelfType
  }

  predicate IsOpener(kind: Kind) {
    kind == LBrace || kind == LBracket || kind == LParen
  }

  predicate IsCloser(kind: Kind) {
    kind == RBrace || kind == RBracket || kind == RParen
  }

  predicate IsLiteral(kind: Kind) {
    kind == Integer || kind == Float || kind == String || kind == Char || kind == True || kind == False
  }

  /** A token the grammar sees, with the number of reserved words that follow it before
      the next such token. */
  datatype Word = Word(kind: Kind, spelling: string, reserved: nat)

  /** A token list as the lexer hands it over: its only end-of-file token comes last. */
  predicate EndsOnce(ts: seq<Token>) {
    ts != [] && forall i | 0 <= i < |ts| :: ts[i].kind == Eof <==> i == |ts| - 1
  }

  type TokenList = ts: seq<Token> | EndsOnce(ts) witness [Token(Eof, "")]

  /** The reserved words from index `i` up to the next significant token. */
  function ReservedAhead(ts: seq<Token>, i: nat): nat
    decreases |ts| - i
  {
    if i >= |ts| || !IsInsignificant(ts[i].kind) then 0
    else ReservedAhead(ts, i + 1) + if IsReserved(ts[i].kind) then 1 else 0
  }

  /** What the grammar sees of a token list, first word first. */
  datatype Stream = End | More(head: Word, tail: Stream)

  function Length(s: Stream): nat {
    match s
    case End => 0
    case More(_, tail) => 1 + Length(tail)
  }

  /** The words from index `i` on. */
  function Words(ts: seq<Token>, i: nat): Stream
    decreases |ts| - i
  {
    if i >= |ts| then End
    else if IsInsignificant(ts[i].kind) then Words(ts, i + 1)
    else More(Word(ts[i].kind, ts[i].spelling, ReservedAhead(ts, i + 1)), Words(ts, i + 1))
  }
}
