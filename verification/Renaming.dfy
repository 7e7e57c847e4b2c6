/** The renaming pass as a function on scope trees: what each step does to the innermost
    scope, the counter of minted names and the list of errors.  The scopes `below` the
    innermost one are only read. */
module Renaming {
  import opened Options
  import opened Spelling
  import opened Scoping

  /** `preseeded` marks a binding copied from an or-pattern's first alternative into a
      later one, `seen` that it has appeared there. */
  datatype Binding = Binding(orig: string, spelled: string, preseeded: bool, seen: bool)

  datatype Error = AlreadyBound(name: string) | OrPatternMismatch

  datatype State = State(top: seq<Binding>, counter: nat, errors: seq<Error>) {
    function Report(error: Error): State { this.(errors := errors + [error]) }
  }

  const INITIAL := State([], 0, [])

  function Origs(scope: seq<Binding>): (names: seq<string>)
    ensures |names| == |scope| && forall i :: 0 <= i < |scope| ==> names[i] == scope[i].orig
  {
    seq(|scope|, i requires 0 <= i < |scope| => scope[i].orig)
  }

  function Spellings(scope: seq<Binding>): (names: seq<string>)
    ensures |names| == |scope| && forall i :: 0 <= i < |scope| ==> names[i] == scope[i].spelled
  {
    seq(|scope|, i requires 0 <= i < |scope| => scope[i].spelled)
  }

  /** The scopes as the source spells them, and as the output spells them. */
  function OrigScopes(scopes: seq<seq<Binding>>): (r: seq<seq<string>>)
    ensures |r| == |scopes| && forall i :: 0 <= i < |scopes| ==> r[i] == Origs(scopes[i])
  {
    seq(|scopes|, i requires 0 <= i < |scopes| => Origs(scopes[i]))
  }

  function SpelledScopes(scopes: seq<seq<Binding>>): (r: seq<seq<string>>)
    ensures |r| == |scopes| && forall i :: 0 <= i < |scopes| ==> r[i] == Spellings(scopes[i])
  {
    seq(|scopes|, i requires 0 <= i < |scopes| => Spellings(scopes[i]))
  }

  /** The spelling a use gets. */
  function Lookup(scopes: seq<seq<Binding>>, name: string): string {
    if IsKeyword(name) then name
    else
      match Find(OrigScopes(scopes), name)
      case None => name
      case Some((i, j)) => scopes[i][j].spelled
  }

  predicate Shadows(below: seq<seq<Binding>>, name: string) {
    exists scope <- below :: name in Origs(scope)
  }

  /** The spelling a binder gets, and what declaring it does. */
  function Declare(below: seq<seq<Binding>>, st: State, name: string): (r: (State, string))
    ensures st.errors <= r.0.errors && st.counter <= r.0.counter
  {
    if IsKeyword(name) then (st, name)
    else
      match IndexOf(Origs(st.top), name)
      case Some(j) =>
        if st.top[j].preseeded then
          (st.(top := st.top[j := st.top[j].(seen := true)]), st.top[j].spelled)
        else
          (st.Report(AlreadyBound(name)), name)
      case None =>
        if Shadows(below, name) then
          var minted := Minted(name, st.counter);
          (st.(top := st.top + [Binding(name, minted, false, false)], counter := st.counter + 1), minted)
        else
          (st.(top := st.top + [Binding(name, name, false, false)]), name)
  }

  function Preseed(scope: seq<Binding>): (r: seq<Binding>)
    ensures |r| == |scope|
    ensures forall i :: 0 <= i < |scope| ==> r[i] == Binding(scope[i].orig, scope[i].spelled, true, false)
  {
    seq(|scope|, i requires 0 <= i < |scope| => scope[i].(preseeded := true, seen := false))
  }

  /** A later alternative that added a name, or left out one of the first's. */
  predicate Mismatched(scope: seq<Binding>, first: seq<Binding>) {
    |scope| != |first| || exists b <- scope :: b.preseeded && !b.seen
  }

  predicate Clashes(scope: seq<Binding>, name: string) {
    exists b <- scope :: b.orig == name && !b.preseeded
  }

  /** Moves an or-pattern's names into the scope around it. */
  function Merge(st: State, names: seq<Binding>): (r: State)
    ensures st.errors <= r.errors && st.counter == r.counter
    decreases |names|
  {
    if names == [] then st
    else if Clashes(st.top, names[0].orig) then
      Merge(st.Report(AlreadyBound(names[0].orig)), names[1..])
    else
      Merge(st.(top := st.top + [names[0]]), names[1..])
  }

  function VisitPattern(below: seq<seq<Binding>>, st: State, p: Pattern<string>): (r: (State, Pattern<string>))
    ensures st.errors <= r.0.errors && st.counter <= r.0.counter
    decreases p, 1
  {
    match p
    case Binder(isMut, name) =>
      var (st', name') := Declare(below, st, name);
      (st', Binder(isMut, name'))
    case PlainPattern(form, parts) =>
      var (st', parts') := VisitPatterns(below, st, parts);
      (st', PlainPattern(form, parts'))
    case OrPattern(first, rest) =>
      var (st1, first') := VisitPattern(below + [st.top], st.(top := []), first);
      var (st2, rest') := VisitAlternatives(below + [st.top], st1, rest);
      (Merge(st2.(top := st.top), st1.top), OrPattern(first', rest'))
  }

  function VisitPatterns(below: seq<seq<Binding>>, st: State, ps: seq<Pattern<string>>)
      : (r: (State, seq<Pattern<string>>))
    ensures st.errors <= r.0.errors && st.counter <= r.0.counter
    decreases ps, 0
  {
    if ps == [] then (st, [])
    else
      var (st1, p') := VisitPattern(below, st, ps[0]);
      var (st2, ps') := VisitPatterns(below, st1, ps[1..]);
      (st2, [p'] + ps')
  }

  /** One later alternative.  It starts from the first one's names, which are `st.top`
      before and after. */
  function VisitAlternative(below: seq<seq<Binding>>, st: State, p: Pattern<string>): (r: (State, Pattern<string>))
    ensures r.0.top == st.top
    ensures st.errors <= r.0.errors && st.counter <= r.0.counter
    decreases p, 2
  {
    var (st1, p') := VisitPattern(below, st.(top := Preseed(st.top)), p);
    if Mismatched(st1.top, st.top) then (st1.(top := st.top).Report(OrPatternMismatch), p')
    else (st1.(top := st.top), p')
  }

  function VisitAlternatives(below: seq<seq<Binding>>, st: State, ps: seq<Pattern<string>>)
      : (r: (State, seq<Pattern<string>>))
    ensures r.0.top == st.top
    ensures st.errors <= r.0.errors && st.counter <= r.0.counter
    decreases ps, 0
  {
    if ps == [] then (st, [])
    else
      var (st1, p') := VisitAlternative(below, st, ps[0]);
      var (st2, ps') := VisitAlternatives(below, st1, ps[1..]);
      (st2, [p'] + ps')
  }

  function VisitTree(below: seq<seq<Binding>>, st: State, t: Tree<string>): (r: (State, Tree<string>))
    ensures st.errors <= r.0.errors && st.counter <= r.0.counter
    decreases t, 1
  {
    match t
    case Use(name) => (st, Use(Lookup(below + [st.top], name)))
    case Bind(p) =>
      var (st', p') := VisitPattern(below, st, p);
      (st', Bind(p'))
    case Group(form, parts) =>
      var (st', parts') := VisitTrees(below, st, parts);
      (st', Group(form, parts'))
    case Scope(form, parts) =>
      var (st', parts') := VisitTrees(below + [st.top], st.(top := []), parts);
      (st'.(top := st.top), Scope(form, parts'))
  }

  function VisitTrees(below: seq<seq<Binding>>, st: State, ts: seq<Tree<string>>)
      : (r: (State, seq<Tree<string>>))
    ensures st.errors <= r.0.errors && st.counter <= r.0.counter
    decreases ts, 0
  {
    if ts == [] then (st, [])
    else
      var (st1, t') := VisitTree(below, st, ts[0]);
      var (st2, ts') := VisitTrees(below, st1, ts[1..]);
      (st2, [t'] + ts')
  }

  /** The whole pass: one scope around all items. */
  function Run(t: Tree<string>): (State, Tree<string>) {
    VisitTree([], INITIAL, t)
  }
}
