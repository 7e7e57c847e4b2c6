/** The syntax tree.  Nodes are values: source spans and arena pointers are dropped. */
module Ast {
  import opened Options

  type Path = seq<string>

  datatype LiteralKind = IntegerLiteral | FloatLiteral | StringLiteral | CharLiteral | BoolLiteral

  datatype Literal = Literal(kind: LiteralKind, spelling: string)

  datatype PrimitiveKind =
    | I8 | I16 | I32 | I64 | I128 | Isize
    | U8 | U16 | U32 | U64 | U128 | Usize
    | F32 | F64 | Bool

  datatype Type =
    | PrimitiveType(primitive: PrimitiveKind)
    | UnitType
    | NeverType
    | StrType
    | TupleType(elements: seq<Type>)
    | PathType(path: Path, args: seq<Type>)
    | RefType(isMut: bool, inner: Type)

  /** An or-pattern has a first alternative and at least one more. */
  datatype Pattern =
    | WildcardPattern
    | IdentPattern(name: string)
    | MutIdentPattern(name: string)
    | LiteralPattern(value: Literal)
    | TuplePattern(head: Option<Path>, elements: seq<Pattern>)
    | StructPattern(path: Path, fields: seq<FieldPattern>)
    | RefPattern(isMut: bool, inner: Pattern)
    | OrPattern(first: Pattern, rest: seq<Pattern>)

  datatype FieldPattern = FieldPattern(name: string, pattern: Pattern)

  datatype UnaryOp = Neg | Not | BitNot

  datatype BinaryOp =
    | Add | Sub | Mul | Div | Mod | Pow
    | BitAnd | BitOr | BitXor | Shl | Shr
    | Eq | NotEq | Gt | Lt | GtEq | LtEq
    | And | Or

  datatype Expr =
    | LiteralExpr(value: Literal)
    | PathExpr(path: Path)
    | StructExpr(path: Path, init: seq<FieldInit>, baseExpr: Option<Expr>)
    | TupleExpr(elements: seq<Expr>)
    | UnaryExpr(uop: UnaryOp, inner: Expr)
    | BorrowExpr(isMut: bool, inner: Expr)
    | BinaryExpr(op: BinaryOp, lhs: Expr, rhs: Expr)
    | CastExpr(inner: Expr, target: Type)
    | CallExpr(callee: Expr, args: seq<Expr>)
    | MethodCallExpr(receiver: Expr, name: string, args: seq<Expr>)
    | FieldExpr(receiver: Expr, name: string)
    | IndexExpr(receiver: Expr, index: Expr)
    | QuestionExpr(inner: Expr)
    | IfExpr(cond: Cond, thenBlock: Block, elseBlock: Option<Block>)
    | MatchExpr(scrutinee: Expr, arms: seq<MatchArm>)
    | LoopExpr(body: Block)
    | WhileExpr(cond: Cond, body: Block)
    | BlockExpr(block: Block)
    | ReturnExpr(result: Option<Expr>)
    | BreakExpr
    | ContinueExpr
    | RangeExpr(start: Option<Expr>, end: Option<Expr>, inclusive: bool)

  datatype FieldInit = FieldInit(name: string, value: Expr)

  /** An `if` or `while` condition: a pattern declaration or a plain expression. */
  datatype Cond =
    | PatternCond(pattern: Pattern, init: Expr)
    | ExprCond(value: Expr)

  datatype MatchArm = MatchArm(pattern: Pattern, body: Expr)

  datatype Block = Block(statements: seq<Stmt>, value: Option<Expr>)

  datatype Stmt =
    | DeclStmt(pattern: Pattern, ascription: Option<Type>, init: Expr)
    | ReassignStmt(place: Expr, compound: Option<BinaryOp>, value: Expr)
    | ExprStmt(value: Expr)

  datatype FnParam = FnParam(pattern: Pattern, paramType: Type)
  datatype StructField = StructField(name: string, fieldType: Type)
  datatype EnumVariant = EnumVariant(name: string, fields: seq<Type>)

  datatype Item =
    | FnItem(isPub: bool, name: string, params: seq<FnParam>, returnType: Option<Type>, body: Block)
    | StructItem(isPub: bool, name: string, fields: seq<StructField>)
    | EnumItem(isPub: bool, name: string, variants: seq<EnumVariant>)
    | ImplItem(isPub: bool, target: Type, methods: seq<Item>)
    | ModItem(isPub: bool, name: string, items: seq<Item>, isInline: bool)
    | StaticItem(isPub: bool, name: string, itemType: Type, init: Expr)
    | ConstItem(isPub: bool, name: string, itemType: Type, init: Expr)
    | UseItem(isPub: bool, path: Path, alias: Option<string>)
}
