/** The output of the pass needs no further renaming: no binder in it shadows another,
    and the pass, run again, changes nothing and reports nothing. */
module RenamingOnce {
  import opened Options
  import opened Spelling
  import opened Scoping
  import opened Renaming
  import opened RenamingMeaning
  import Accepts = RenamingAccepts

  // ----- Running the pass on its own output -----

  /** A scope as a second run sees it: every binding keeps its spelling. */
  function Settled(scope: seq<Binding>): (r: seq<Binding>)
    ensures |r| == |scope|
    ensures forall i :: 0 <= i < |scope| ==> r[i] == scope[i].(orig := scope[i].spelled)
  {
    seq(|scope|, i requires 0 <= i < |scope| => scope[i].(orig := scope[i].spelled))
  }

  function SettledScopes(scopes: seq<seq<Binding>>): (r: seq<seq<Binding>>)
    ensures |r| == |scopes| && forall i :: 0 <= i < |scopes| ==> r[i] == Settled(scopes[i])
  {
    seq(|scopes|, i requires 0 <= i < |scopes| => Settled(scopes[i]))
  }

  /** The second run's state beside the first's; its own counter never moves. */
  function Second(st: State, counter: nat): State {
    State(Settled(st.top), counter, [])
  }

  lemma SettledPush(below: seq<seq<Binding>>, top: seq<Binding>)
    ensures SettledScopes(below + [top]) == SettledScopes(below) + [Settled(top)]
    ensures Settled([]) == []
  {
  }

  lemma SettledNames(scope: seq<Binding>)
    ensures Origs(Settled(scope)) == Spellings(scope)
  {
  }

  lemma SettledAppend(a: seq<Binding>, b: seq<Binding>)
    ensures Settled(a + b) == Settled(a) + Settled(b)
  {
  }

  lemma {:induction false} NewToSettled(below: seq<seq<Binding>>, name: string)
    requires name !in Spelt(below)
    ensures !Shadows(SettledScopes(below), name)
  {
    forall scope | scope in SettledScopes(below) ensures name !in Origs(scope) {
      var i :| 0 <= i < |below| && Settled(below[i]) == scope;
      SettledNames(below[i]);
      SpeltInIs(below[i]);
      SpeltHolds(below, i);
    }
  }

  lemma {:induction false} SpeltHolds(scopes: seq<seq<Binding>>, i: nat)
    requires i < |scopes|
    ensures SpeltIn(scopes[i]) <= Spelt(scopes)
  {
    if i < |scopes| - 1 {
      SpeltHolds(scopes[..|scopes| - 1], i);
    }
  }

  /** A second run takes the same step and finds the name as the first run left it. */
  ghost predicate DeclaredAgain(below: seq<seq<Binding>>, st: State, name: string, c: nat) {
    var (st', name') := Declare(below, st, name);
    Declare(SettledScopes(below), Second(st, c), name') == (Second(st', c), name')
  }

  lemma DeclareAgain(below: seq<seq<Binding>>, st: State, name: string, c: nat)
    requires Stacked(below, st.top, st.counter) && IsSource(name)
    requires Declare(below, st, name).0.errors == st.errors
    ensures DeclaredAgain(below, st, name, c)
  {
    SettledNames(st.top);
    if !IsKeyword(name) {
      if name in Origs(st.top) {
        var j := IndexOf(Origs(st.top), name).value;
        assert st.top[j] in st.top;
        HonestSpelling(st.top[j], st.counter);
        TopIndex(st.top, j);
        assert Settled(st.top[j := st.top[j].(seen := true)])
            == Settled(st.top)[j := Settled(st.top)[j].(seen := true)];
      } else {
        var (st', name') := Declare(below, st, name);
        NewSpelling(below, st, name);
        SpeltInIs(st.top);
        NewToSettled(below, name');
        SettledAppend(st.top, [Binding(name, name', false, false)]);
        assert Settled([Binding(name, name', false, false)]) == [Binding(name', name', false, false)];
      }
    }
  }

  lemma {:induction false} MergeAgain(st: State, names: seq<Binding>, c: nat)
    requires forall b <- st.top, d <- names :: b.spelled != d.spelled
    requires SpeltApart(names)
    requires Merge(st, names).errors == st.errors
    ensures Merge(Second(st, c), Settled(names)) == Second(Merge(st, names), c)
    decreases |names|
  {
    if names != [] {
      forall b | b in Settled(st.top) ensures b.orig != names[0].spelled {
        var i :| 0 <= i < |st.top| && Settled(st.top)[i] == b;
        assert st.top[i] in st.top && names[0] in names;
      }
      var st1 := st.(top := st.top + [names[0]]);
      SettledAppend(st.top, [names[0]]);
      assert Settled([names[0]]) == [Settled(names)[0]];
      assert Settled(names)[1..] == Settled(names[1..]);
      MergeAgain(st1, names[1..], c);
    }
  }

  ghost predicate PatternAgreesAgain(below: seq<seq<Binding>>, st: State, p: Pattern<string>, c: nat) {
    var (st', p') := VisitPattern(below, st, p);
    VisitPattern(SettledScopes(below), Second(st, c), p') == (Second(st', c), p')
  }

  lemma {:induction false} PatternAgain(below: seq<seq<Binding>>, st: State, p: Pattern<string>, c: nat)
    requires Stacked(below, st.top, st.counter) && FromSourcePattern(p)
    requires VisitPattern(below, st, p).0.errors == st.errors
    ensures PatternAgreesAgain(below, st, p, c)
    decreases p, 1
  {
    match p
    case Binder(_, name) => DeclareAgain(below, st, name, c);
    case PlainPattern(_, parts) => PatternsAgain(below, st, parts, c);
    case OrPattern(first, rest) => OrAgain(below, st, first, rest, p, c);
  }

  lemma {:induction false} PatternsAgain(below: seq<seq<Binding>>, st: State, ps: seq<Pattern<string>>, c: nat)
    requires Stacked(below, st.top, st.counter) && forall q <- ps :: FromSourcePattern(q)
    requires VisitPatterns(below, st, ps).0.errors == st.errors
    ensures var (st', ps') := VisitPatterns(below, st, ps);
      VisitPatterns(SettledScopes(below), Second(st, c), ps') == (Second(st', c), ps')
    decreases ps, 0
  {
    if ps != [] {
      PatternAgain(below, st, ps[0], c);
      PatternKeepsMeaning(below, st, ps[0]);
      PatternsAgain(below, VisitPattern(below, st, ps[0]).0, ps[1..], c);
    }
  }

  lemma {:induction false} OrAgain(
      below: seq<seq<Binding>>, st: State, first: Pattern<string>, rest: seq<Pattern<string>>, p: Pattern<string>, c: nat)
    requires p == OrPattern(first, rest)
    requires Stacked(below, st.top, st.counter) && FromSourcePattern(p)
    requires VisitPattern(below, st, p).0.errors == st.errors
    ensures PatternAgreesAgain(below, st, p, c)
    decreases p, 0
  {
    PushSound(below, st.top, st.counter);
    SettledPush(below, st.top);
    var inner := below + [st.top];
    PatternAgain(inner, st.(top := []), first, c);
    PatternKeepsMeaning(inner, st.(top := []), first);
    var st1 := VisitPattern(inner, st.(top := []), first).0;
    AlternativesAgain(inner, st1, rest, c);
    forall b, d | b in st.top && d in st1.top ensures b.spelled != d.spelled {
      assert d.spelled !in Spelt(inner) && b.spelled in SpeltIn(st.top);
    }
    MergeAgain(VisitAlternatives(inner, st1, rest).0.(top := st.top), st1.top, c);
  }

  lemma {:induction false} AlternativesAgain(below: seq<seq<Binding>>, st: State, ps: seq<Pattern<string>>, c: nat)
    requires Stacked(below, st.top, st.counter) && forall q <- ps :: FromSourcePattern(q)
    requires VisitAlternatives(below, st, ps).0.errors == st.errors
    ensures var (st', ps') := VisitAlternatives(below, st, ps);
      VisitAlternatives(SettledScopes(below), Second(st, c), ps') == (Second(st', c), ps')
    decreases ps, 0
  {
    if ps != [] {
      var start := st.(top := Preseed(st.top));
      FlagsDoNotMatter(below, st.top, start.top, st.counter);
      assert Settled(start.top) == Preseed(Settled(st.top));
      PatternAgain(below, start, ps[0], c);
      PatternKeepsMeaning(below, start, ps[0]);
      var st1 := VisitPattern(below, start, ps[0]).0;
      MatchedAgain(st1.top, st.top);
      CounterGrows(below, st.counter, st1.counter);
      AlternativesAgain(below, st1.(top := st.top), ps[1..], c);
    }
  }

  lemma MatchedAgain(scope: seq<Binding>, names: seq<Binding>)
    requires !Mismatched(scope, names)
    ensures !Mismatched(Settled(scope), Settled(names))
  {
    forall b | b in Settled(scope) ensures !b.preseeded || b.seen {
      var i :| 0 <= i < |scope| && Settled(scope)[i] == b;
      assert scope[i] in scope;
    }
  }

  lemma UseAgain(scopes: seq<seq<Binding>>, counter: nat, name: string)
    requires Sound(scopes, counter) && IsSource(name)
    ensures Lookup(SettledScopes(scopes), Lookup(scopes, name)) == Lookup(scopes, name)
  {
    var settled := SettledScopes(scopes);
    forall i | 0 <= i < |scopes| ensures Origs(settled[i]) == Spellings(scopes[i]) {
      SettledNames(scopes[i]);
    }
    assert OrigScopes(settled) == SpelledScopes(scopes);
  }

  lemma {:induction false} TreeAgain(below: seq<seq<Binding>>, st: State, t: Tree<string>, c: nat)
    requires Stacked(below, st.top, st.counter) && FromSource(t)
    requires VisitTree(below, st, t).0.errors == st.errors
    ensures var (st', t') := VisitTree(below, st, t);
      VisitTree(SettledScopes(below), Second(st, c), t') == (Second(st', c), t')
    decreases t, 1
  {
    PushSound(below, st.top, st.counter);
    SettledPush(below, st.top);
    match t
    case Use(name) => UseAgain(below + [st.top], st.counter, name);
    case Bind(p) => PatternAgain(below, st, p, c);
    case Group(_, parts) => TreesAgain(below, st, parts, c);
    case Scope(_, parts) => TreesAgain(below + [st.top], st.(top := []), parts, c);
  }

  lemma {:induction false} TreesAgain(below: seq<seq<Binding>>, st: State, ts: seq<Tree<string>>, c: nat)
    requires Stacked(below, st.top, st.counter) && forall u <- ts :: FromSource(u)
    requires VisitTrees(below, st, ts).0.errors == st.errors
    ensures var (st', ts') := VisitTrees(below, st, ts);
      VisitTrees(SettledScopes(below), Second(st, c), ts') == (Second(st', c), ts')
    decreases ts, 0
  {
    if ts != [] {
      TreeAgain(below, st, ts[0], c);
      TreeKeepsMeaning(below, st, ts[0]);
      TreesAgain(below, VisitTree(below, st, ts[0]).0, ts[1..], c);
    }
  }

  /** Running the pass again on an accepted program changes nothing, mints nothing and
      reports nothing. */
  lemma RunIsIdempotent(t: Tree<string>)
    requires FromSource(t)
    requires Run(t).0.errors == []
    ensures Run(Run(t).1).1 == Run(t).1
    ensures Run(Run(t).1).0.errors == [] && Run(Run(t).1).0.counter == 0
  {
    TreeAgain([], INITIAL, t, 0);
    assert SettledScopes([]) == [] && Second(INITIAL, 0) == INITIAL;
  }

  // ----- Nothing in the output shadows anything -----

  /** A pattern's output names avoid every scope below the innermost, and are exactly
      what the innermost scope gains. */
  ghost predicate OutputFits(below: seq<seq<Binding>>, st: State, st': State, names: set<string>) {
    names !! Spelt(below) && SpeltIn(st'.top) == SpeltIn(st.top) + names
  }

  lemma DeclareFits(below: seq<seq<Binding>>, st: State, name: string, isMut: bool)
    requires Stacked(below, st.top, st.counter) && IsSource(name)
    requires Declare(below, st, name).0.errors == st.errors
    ensures var (st', name') := Declare(below, st, name); OutputFits(below, st, st', Names(Binder(isMut, name')))
  {
    if !IsKeyword(name) {
      var (st', name') := Declare(below, st, name);
      if name in Origs(st.top) {
        var j := IndexOf(Origs(st.top), name).value;
        assert st.top[j] in st.top;
        HonestSpelling(st.top[j], st.counter);
        FlagsDoNotMatter(below, st.top, st'.top, st.counter);
        SameSpelt(st'.top, st.top);
      } else {
        NewSpelling(below, st, name);
        SpeltAppend(st.top, [Binding(name, name', false, false)]);
      }
      assert Names(Binder(isMut, name')) == {name'};
    }
  }

  lemma {:induction false} PatternOutputFits(below: seq<seq<Binding>>, st: State, p: Pattern<string>)
    requires Stacked(below, st.top, st.counter) && FromSourcePattern(p)
    requires VisitPattern(below, st, p).0.errors == st.errors
    ensures var (st', p') := VisitPattern(below, st, p); OutputFits(below, st, st', Names(p'))
    decreases p, 1
  {
    match p
    case Binder(isMut, name) => DeclareFits(below, st, name, isMut);
    case PlainPattern(_, parts) => PatternsOutputFits(below, st, parts);
    case OrPattern(first, rest) =>
      PushSound(below, st.top, st.counter);
      var inner := below + [st.top];
      PatternOutputFits(inner, st.(top := []), first);
      PatternKeepsMeaning(inner, st.(top := []), first);
      var st1 := VisitPattern(inner, st.(top := []), first).0;
      AlternativesOutputFits(inner, st1, rest);
      MergeAppends(VisitAlternatives(inner, st1, rest).0.(top := st.top), st1.top);
      SpeltAppend(st.top, st1.top);
  }

  lemma {:induction false} PatternsOutputFits(below: seq<seq<Binding>>, st: State, ps: seq<Pattern<string>>)
    requires Stacked(below, st.top, st.counter) && forall q <- ps :: FromSourcePattern(q)
    requires VisitPatterns(below, st, ps).0.errors == st.errors
    ensures var (st', ps') := VisitPatterns(below, st, ps); OutputFits(below, st, st', NamesOfAll(ps'))
    decreases ps, 0
  {
    if ps != [] {
      PatternOutputFits(below, st, ps[0]);
      PatternKeepsMeaning(below, st, ps[0]);
      var (st1, p') := VisitPattern(below, st, ps[0]);
      PatternsOutputFits(below, st1, ps[1..]);
      var ps' := VisitPatterns(below, st1, ps[1..]).1;
      assert ([p'] + ps')[1..] == ps';
    }
  }

  lemma {:induction false} AlternativesOutputFits(below: seq<seq<Binding>>, st: State, ps: seq<Pattern<string>>)
    requires Stacked(below, st.top, st.counter) && forall q <- ps :: FromSourcePattern(q)
    requires VisitAlternatives(below, st, ps).0.errors == st.errors
    ensures NamesOfAll(VisitAlternatives(below, st, ps).1) <= SpeltIn(st.top)
    decreases ps, 0
  {
    if ps != [] {
      var start := st.(top := Preseed(st.top));
      FlagsDoNotMatter(below, st.top, start.top, st.counter);
      PatternOutputFits(below, start, ps[0]);
      PatternKeepsMeaning(below, start, ps[0]);
      var (st1, p') := VisitPattern(below, start, ps[0]);
      assert Spellings(start.top) <= Spellings(st1.top);
      assert Spellings(st1.top) == Spellings(st.top);
      SameSpelt(st1.top, st.top);
      CounterGrows(below, st.counter, st1.counter);
      AlternativesOutputFits(below, st1.(top := st.top), ps[1..]);
      var ps' := VisitAlternatives(below, st1.(top := st.top), ps[1..]).1;
      assert ([p'] + ps')[1..] == ps';
    }
  }

  lemma {:induction false} TreeOutputFits(below: seq<seq<Binding>>, st: State, t: Tree<string>)
    requires Stacked(below, st.top, st.counter) && FromSource(t)
    requires VisitTree(below, st, t).0.errors == st.errors
    ensures var (st', t') := VisitTree(below, st, t);
      ShadowFree(Spelt(below), SpeltIn(st.top), t') && OutputFits(below, st, st', Added(t'))
    decreases t, 1
  {
    match t
    case Use(_) =>
    case Bind(p) => PatternOutputFits(below, st, p);
    case Group(_, parts) => TreesOutputFit(below, st, parts);
    case Scope(_, parts) =>
      PushSound(below, st.top, st.counter);
      TreesOutputFit(below + [st.top], st.(top := []), parts);
      assert SpeltIn([]) == {};
  }

  lemma {:induction false} TreesOutputFit(below: seq<seq<Binding>>, st: State, ts: seq<Tree<string>>)
    requires Stacked(below, st.top, st.counter) && forall u <- ts :: FromSource(u)
    requires VisitTrees(below, st, ts).0.errors == st.errors
    ensures var (st', ts') := VisitTrees(below, st, ts);
      AllShadowFree(Spelt(below), SpeltIn(st.top), ts') && OutputFits(below, st, st', AddedByAll(ts'))
    decreases ts, 0
  {
    if ts != [] {
      TreeOutputFits(below, st, ts[0]);
      TreeKeepsMeaning(below, st, ts[0]);
      var (st1, t') := VisitTree(below, st, ts[0]);
      TreesOutputFit(below, st1, ts[1..]);
      var ts' := VisitTrees(below, st1, ts[1..]).1;
      assert ([t'] + ts')[1..] == ts';
    }
  }

  /** In the output of an accepted program no binder spells a name of an enclosing scope, nor
      one that its own scope has already. */
  lemma RunRemovesShadowing(t: Tree<string>)
    requires FromSource(t)
    requires Run(t).0.errors == []
    ensures ShadowFree({}, {}, Run(t).1) && WellBound(Run(t).1)
  {
    TreeOutputFits([], INITIAL, t);
    assert SpeltIn([]) == {};
    RunIsIdempotent(t);
    Accepts.AcceptedExactlyWhenWellBound(Run(t).1);
  }
}
