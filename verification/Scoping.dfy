/** Scope trees: what lexical scoping sees of a program, and what its names mean.

    A tree keeps every construct (as a `Form`) and every name of a program, and says
    which parts share a scope.  The type parameter is the kind of name stored in it:
    `Tree<string>` is a program as spelled, `Tree<Ref>` is its name-free form, in which
    each use and each binder is the place of the binding it stands for. */
module Scoping {
  import opened Options
  import opened Spelling
  import Ast

  /** What a node is, apart from its parts and its local names. */
  datatype Form =
    | WildcardForm
    | LiteralPatternForm(value: Ast.Literal)
    | TuplePatternForm(head: Option<Ast.Path>)
    | StructPatternForm(path: Ast.Path, fields: seq<string>)
    | RefPatternForm(isMut: bool)
    | LiteralForm(value: Ast.Literal)
    | PathForm(path: Ast.Path)
    | StructForm(path: Ast.Path, fields: seq<string>, hasBase: bool)
    | TupleForm
    | UnaryForm(uop: Ast.UnaryOp)
    | BorrowForm(isMut: bool)
    | BinaryForm(op: Ast.BinaryOp)
    | CastForm(target: Ast.Type)
    | CallForm
    | MethodCallForm(name: string)
    | FieldForm(name: string)
    | IndexForm
    | QuestionForm
    | IfForm(hasElse: bool)
    | ConditionForm
    | MatchForm
    | ArmForm
    | LoopForm
    | WhileForm
    | BlockForm(hasValue: bool)
    | BlockExprForm
    | ReturnForm(hasResult: bool)
    | BreakForm
    | ContinueForm
    | RangeForm(hasStart: bool, hasEnd: bool, inclusive: bool)
    | DeclForm(ascription: Option<Ast.Type>)
    | ReassignForm(compound: Option<Ast.BinaryOp>)
    | ExprStmtForm
    | FnForm(isPub: bool, name: string, paramTypes: seq<Ast.Type>, returnType: Option<Ast.Type>)
    | ImplForm(isPub: bool, target: Ast.Type)
    | ModForm(isPub: bool, name: string, isInline: bool)
    | StaticForm(isPub: bool, name: string, itemType: Ast.Type)
    | ConstForm(isPub: bool, name: string, itemType: Ast.Type)
    | UnvisitedForm(item: Ast.Item)
    | ProgramForm

  /** `OrPattern` keeps its first alternative apart: it always has one. */
  datatype Pattern<N> =
    | Binder(isMut: bool, name: N)
    | PlainPattern(form: Form, parts: seq<Pattern<N>>)
    | OrPattern(first: Pattern<N>, rest: seq<Pattern<N>>)

  datatype Tree<N> =
    | Use(name: N)
    | Bind(pattern: Pattern<N>)
    | Group(form: Form, parts: seq<Tree<N>>)
    | Scope(form: Form, parts: seq<Tree<N>>)

  /** A local binding is named by its place in the stack of open scopes. */
  datatype Ref = Local(depth: nat, index: nat) | Free(name: string)

  function IndexOf(names: seq<string>, name: string): (r: Option<nat>)
    ensures r.Some? ==> r.value < |names| && names[r.value] == name && name !in names[..r.value]
    ensures r.None? <==> name !in names
  {
    if names == [] then None
    else if names[0] == name then Some(0)
    else
      match IndexOf(names[1..], name)
      case None => None
      case Some(j) => Some(j + 1)
  }

  /** Innermost scope first; inside one scope, earliest binding first. */
  function Find(scopes: seq<seq<string>>, name: string): (r: Option<(nat, nat)>)
    ensures r.Some? ==> r.value.0 < |scopes| && r.value.1 < |scopes[r.value.0]|
    ensures r.Some? ==> scopes[r.value.0][r.value.1] == name
  {
    if scopes == [] then None
    else
      match IndexOf(scopes[|scopes| - 1], name)
      case Some(j) => Some((|scopes| - 1, j))
      case None => Find(scopes[..|scopes| - 1], name)
  }

  /** The meaning of a use, under the given open scopes. */
  function Resolve(scopes: seq<seq<string>>, name: string): Ref {
    if IsKeyword(name) then Free(name)
    else
      match Find(scopes, name)
      case None => Free(name)
      case Some((depth, index)) => Local(depth, index)
  }

  /** The meaning of a binder at the given depth: it joins the innermost scope `top`,
      once per name. */
  function Introduce(depth: nat, top: seq<string>, name: string): (seq<string>, Ref) {
    if IsKeyword(name) then (top, Free(name))
    else
      match IndexOf(top, name)
      case Some(j) => (top, Local(depth, j))
      case None => (top + [name], Local(depth, |top|))
  }

  /** The name-free form of a pattern, and the innermost scope after it.  The names of an
      or-pattern's first alternative are the names of every other alternative, and they
      all end up in the scope around the or-pattern. */
  function PatternRefs(depth: nat, top: seq<string>, p: Pattern<string>): (r: (seq<string>, Pattern<Ref>))
    ensures top <= r.0
    decreases p, 1
  {
    match p
    case Binder(isMut, name) =>
      var (top', ref) := Introduce(depth, top, name);
      (top', Binder(isMut, ref))
    case PlainPattern(form, parts) =>
      var (top', parts') := PatternsRefs(depth, top, parts);
      (top', PlainPattern(form, parts'))
    case OrPattern(first, rest) =>
      var (names, first') := PatternRefs(depth + 1, [], first);
      (top + names, OrPattern(first', AlternativesRefs(depth + 1, names, rest)))
  }

  function PatternsRefs(depth: nat, top: seq<string>, ps: seq<Pattern<string>>)
      : (r: (seq<string>, seq<Pattern<Ref>>))
    ensures top <= r.0
    decreases ps, 0
  {
    if ps == [] then (top, [])
    else
      var (top1, p') := PatternRefs(depth, top, ps[0]);
      var (top2, ps') := PatternsRefs(depth, top1, ps[1..]);
      (top2, [p'] + ps')
  }

  function AlternativesRefs(depth: nat, names: seq<string>, ps: seq<Pattern<string>>): seq<Pattern<Ref>>
    decreases ps, 0
  {
    if ps == [] then []
    else [PatternRefs(depth, names, ps[0]).1] + AlternativesRefs(depth, names, ps[1..])
  }

  /** The name-free form of a tree under the scopes `below + [top]`, and the innermost
      scope after it. */
  function TreeRefs(below: seq<seq<string>>, top: seq<string>, t: Tree<string>): (r: (seq<string>, Tree<Ref>))
    decreases t, 1
  {
    match t
    case Use(name) => (top, Use(Resolve(below + [top], name)))
    case Bind(p) =>
      var (top', p') := PatternRefs(|below|, top, p);
      (top', Bind(p'))
    case Group(form, parts) =>
      var (top', parts') := TreesRefs(below, top, parts);
      (top', Group(form, parts'))
    case Scope(form, parts) =>
      (top, Scope(form, TreesRefs(below + [top], [], parts).1))
  }

  function TreesRefs(below: seq<seq<string>>, top: seq<string>, ts: seq<Tree<string>>)
      : (r: (seq<string>, seq<Tree<Ref>>))
    decreases ts, 0
  {
    if ts == [] then (top, [])
    else
      var (top1, t') := TreeRefs(below, top, ts[0]);
      var (top2, ts') := TreesRefs(below, top1, ts[1..]);
      (top2, [t'] + ts')
  }

  /** The name-free form of a whole program. */
  function NameFree(t: Tree<string>): Tree<Ref> {
    TreeRefs([], [], t).1
  }

  // ----- Which programs are well bound, said without any traversal state -----

  function Names(p: Pattern<string>): set<string>
    decreases p, 1
  {
    match p
    case Binder(_, name) => if IsKeyword(name) then {} else {name}
    case PlainPattern(_, parts) => NamesOfAll(parts)
    case OrPattern(first, rest) => Names(first) + NamesOfAll(rest)
  }

  function NamesOfAll(ps: seq<Pattern<string>>): set<string>
    decreases ps, 0
  {
    if ps == [] then {} else Names(ps[0]) + NamesOfAll(ps[1..])
  }

  /** Every or-pattern inside binds nothing at all. */
  predicate NestedOrsBindNothing(p: Pattern<string>)
    decreases p
  {
    match p
    case Binder(_, _) => true
    case PlainPattern(_, parts) => forall q <- parts :: NestedOrsBindNothing(q)
    case OrPattern(_, _) => Names(p) == {}
  }

  /** No name twice, and or-alternatives that agree on their names.  Two allowances are
      the pass's own: a later alternative may repeat a name, but it may not hold an
      or-pattern that binds something. */
  predicate WellBoundPattern(p: Pattern<string>)
    decreases p, 1
  {
    match p
    case Binder(_, _) => true
    case PlainPattern(_, parts) => WellBoundPatterns(parts)
    case OrPattern(first, rest) =>
      WellBoundPattern(first) && AllAgree(Names(first), rest)
  }

  /** Later alternatives that bind `names`, and nothing through an or-pattern. */
  predicate AllAgree(names: set<string>, ps: seq<Pattern<string>>) {
    forall q <- ps :: Names(q) == names && NestedOrsBindNothing(q)
  }

  predicate WellBoundPatterns(ps: seq<Pattern<string>>)
    decreases ps, 0
  {
    ps == [] || (
      && WellBoundPattern(ps[0])
      && Names(ps[0]) !! NamesOfAll(ps[1..])
      && WellBoundPatterns(ps[1..]))
  }

  /** The names a tree adds to the scope it stands in. */
  function Added(t: Tree<string>): set<string>
    decreases t, 1
  {
    match t
    case Use(_) => {}
    case Bind(p) => Names(p)
    case Group(_, parts) => AddedByAll(parts)
    case Scope(_, _) => {}
  }

  function AddedByAll(ts: seq<Tree<string>>): set<string>
    decreases ts, 0
  {
    if ts == [] then {} else Added(ts[0]) + AddedByAll(ts[1..])
  }

  /** No scope gets the same name twice. */
  predicate WellBound(t: Tree<string>)
    decreases t, 1
  {
    match t
    case Use(_) => true
    case Bind(p) => WellBoundPattern(p)
    case Group(_, parts) => AllWellBound(parts)
    case Scope(_, parts) => AllWellBound(parts)
  }

  predicate AllWellBound(ts: seq<Tree<string>>)
    decreases ts, 0
  {
    ts == [] || (
      && WellBound(ts[0])
      && Added(ts[0]) !! AddedByAll(ts[1..])
      && AllWellBound(ts[1..]))
  }

  // ----- Where the names come from -----

  /** Every name is one that source text can spell. */
  predicate FromSourcePattern(p: Pattern<string>)
    decreases p
  {
    match p
    case Binder(_, name) => IsSource(name)
    case PlainPattern(_, parts) => forall q <- parts :: FromSourcePattern(q)
    case OrPattern(first, rest) => FromSourcePattern(first) && forall q <- rest :: FromSourcePattern(q)
  }

  predicate FromSource(t: Tree<string>)
    decreases t
  {
    match t
    case Use(name) => IsSource(name)
    case Bind(p) => FromSourcePattern(p)
    case Group(_, parts) => forall u <- parts :: FromSource(u)
    case Scope(_, parts) => forall u <- parts :: FromSource(u)
  }

  // ----- Shadowing -----

  /** No binder in the pattern spells a name of an enclosing scope, counting the names
      an or-pattern's alternatives share once. */
  predicate ShadowFreePattern(outer: set<string>, p: Pattern<string>) {
    Names(p) !! outer
  }

  /** No binder anywhere in the tree spells a name of a scope around its own: `outer`
      are the names of the scopes outside the current one, `top` those already in it. */
  predicate ShadowFree(outer: set<string>, top: set<string>, t: Tree<string>)
    decreases t, 1
  {
    match t
    case Use(_) => true
    case Bind(p) => ShadowFreePattern(outer, p)
    case Group(_, parts) => AllShadowFree(outer, top, parts)
    case Scope(_, parts) => AllShadowFree(outer + top, {}, parts)
  }

  predicate AllShadowFree(outer: set<string>, top: set<string>, ts: seq<Tree<string>>)
    decreases ts, 0
  {
    ts == [] || (
      && ShadowFree(outer, top, ts[0])
      && AllShadowFree(outer, top + Added(ts[0]), ts[1..]))
  }
}
