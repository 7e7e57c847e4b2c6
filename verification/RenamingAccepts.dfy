/** Exactly which programs the pass accepts. */
module RenamingAccepts {
  import opened Options
  import opened Spelling
  import opened Scoping
  import opened Renaming

  function OrigsIn(scope: seq<Binding>): set<string> { set b | b in scope :: b.orig }

  ghost predicate NoTwice(scope: seq<Binding>) {
    forall i, j :: 0 <= i < j < |scope| ==> scope[i].orig != scope[j].orig
  }

  /** An ordinary scope: nothing in it comes from a sibling alternative. */
  ghost predicate Ordinary(scope: seq<Binding>) {
    NoTwice(scope) && forall b <- scope :: !b.preseeded
  }

  /** The scope of a later alternative, as long as it has added nothing. */
  ghost predicate Borrowed(scope: seq<Binding>) {
    NoTwice(scope) && forall b <- scope :: b.preseeded
  }

  lemma {:induction false} NamelessIsFine(p: Pattern<string>)
    requires Names(p) == {}
    ensures WellBoundPattern(p) && NestedOrsBindNothing(p)
    decreases p, 1
  {
    match p
    case Binder(_, _) =>
    case PlainPattern(_, parts) => AllNamelessAreFine(parts);
    case OrPattern(first, rest) =>
      NamelessIsFine(first);
      AllNamelessAreFine(rest);
  }

  lemma {:induction false} AllNamelessAreFine(ps: seq<Pattern<string>>)
    requires NamesOfAll(ps) == {}
    ensures WellBoundPatterns(ps) && AllAgree({}, ps)
    ensures forall q <- ps :: NestedOrsBindNothing(q)
    decreases ps, 0
  {
    if ps != [] {
      NamelessIsFine(ps[0]);
      AllNamelessAreFine(ps[1..]);
    }
  }

  lemma OrigsInIs(scope: seq<Binding>, name: string)
    ensures name in OrigsIn(scope) <==> name in Origs(scope)
  {
    if name in Origs(scope) {
      var i :| 0 <= i < |scope| && Origs(scope)[i] == name;
      assert scope[i] in scope;
    }
    if name in OrigsIn(scope) {
      var i :| 0 <= i < |scope| && scope[i].orig == name;
      assert Origs(scope)[i] == name;
    }
  }

  lemma OrigsAppend(a: seq<Binding>, b: seq<Binding>)
    ensures OrigsIn(a + b) == OrigsIn(a) + OrigsIn(b)
  {
  }

  // ----- Ordinary scopes -----

  /** In an ordinary scope, silence means well bound and new, and the names are added. */
  ghost predicate Judged(st: State, st': State, wellBound: bool, names: set<string>) {
    && Ordinary(st'.top)
    && (st'.errors == st.errors <==> wellBound && names !! OrigsIn(st.top))
    && (st'.errors == st.errors ==> OrigsIn(st'.top) == OrigsIn(st.top) + names)
  }

  lemma BinderIsJudged(below: seq<seq<Binding>>, st: State, name: string)
    requires Ordinary(st.top)
    ensures Judged(st, Declare(below, st, name).0, true, Names(Binder(false, name)))
  {
    OrigsInIs(st.top, name);
    if !IsKeyword(name) {
      if name in Origs(st.top) {
        assert st.top[IndexOf(Origs(st.top), name).value] in st.top;
      } else {
        var st' := Declare(below, st, name).0;
        var b := st'.top[|st.top|];
        assert st'.top == st.top + [b] && b.orig == name;
        OrigsAppend(st.top, [b]);
        forall i | 0 <= i < |st.top| ensures st.top[i].orig != name {
          assert Origs(st.top)[i] == st.top[i].orig;
        }
      }
    }
  }

  lemma {:induction false} MergeIsJudged(st: State, names: seq<Binding>)
    requires Ordinary(st.top) && Ordinary(names)
    ensures Judged(st, Merge(st, names), true, OrigsIn(names))
    decreases |names|
  {
    if names != [] {
      var name := names[0].orig;
      assert names == [names[0]] + names[1..];
      OrigsAppend([names[0]], names[1..]);
      assert OrigsIn([names[0]]) == {name};
      OrigsAppend(st.top, [names[0]]);
      if Clashes(st.top, name) {
        assert name in OrigsIn(st.top);
        MergeIsJudged(st.Report(AlreadyBound(name)), names[1..]);
      } else {
        forall b | b in st.top ensures b.orig != name {
          assert b.orig in OrigsIn(st.top);
        }
        MergeIsJudged(st.(top := st.top + [names[0]]), names[1..]);
        assert name !in OrigsIn(names[1..]);
      }
    }
  }

  lemma {:induction false} PatternIsJudged(below: seq<seq<Binding>>, st: State, p: Pattern<string>)
    requires Ordinary(st.top)
    ensures Judged(st, VisitPattern(below, st, p).0, WellBoundPattern(p), Names(p))
    decreases p, 2
  {
    match p
    case Binder(_, name) => BinderIsJudged(below, st, name);
    case PlainPattern(_, parts) => PatternsAreJudged(below, st, parts);
    case OrPattern(first, rest) =>
      AlternativesTogether(below + [st.top], st.(top := []), first, rest, p);
      var st1 := VisitPattern(below + [st.top], st.(top := []), first).0;
      var st2 := VisitAlternatives(below + [st.top], st1, rest).0;
      MergeIsJudged(st2.(top := st.top), st1.top);
      OrNames(first, rest);
  }

  /** All alternatives are silent exactly on a well-bound or-pattern. */
  lemma {:induction false} AlternativesTogether(
      below: seq<seq<Binding>>, st: State, first: Pattern<string>, rest: seq<Pattern<string>>, p: Pattern<string>)
    requires p == OrPattern(first, rest) && st.top == []
    ensures var st1 := VisitPattern(below, st, first).0;
      var st2 := VisitAlternatives(below, st1, rest).0;
      && Ordinary(st1.top)
      && (st2.errors == st.errors <==> WellBoundPattern(p))
      && (st2.errors == st.errors ==> OrigsIn(st1.top) == Names(first))
    decreases p, 1
  {
    PatternIsJudged(below, st, first);
    AlternativesAreJudged(below, VisitPattern(below, st, first).0, rest);
  }

  /** Alternatives that agree add nothing to the first one's names. */
  lemma {:induction false} OrNames(first: Pattern<string>, rest: seq<Pattern<string>>)
    ensures AllAgree(Names(first), rest) ==> NamesOfAll(rest) <= Names(first)
    decreases rest
  {
    if rest != [] {
      OrNames(first, rest[1..]);
    }
  }

  lemma {:induction false} PatternsAreJudged(below: seq<seq<Binding>>, st: State, ps: seq<Pattern<string>>)
    requires Ordinary(st.top)
    ensures Judged(st, VisitPatterns(below, st, ps).0, WellBoundPatterns(ps), NamesOfAll(ps))
    decreases ps, 0
  {
    if ps != [] {
      PatternIsJudged(below, st, ps[0]);
      PatternsAreJudged(below, VisitPattern(below, st, ps[0]).0, ps[1..]);
    }
  }

  // ----- Later alternatives -----

  lemma {:induction false} MergeGrows(st: State, names: seq<Binding>)
    ensures |st.top| <= |Merge(st, names).top|
    ensures names != [] ==> Merge(st, names).errors != st.errors || |st.top| < |Merge(st, names).top|
    decreases |names|
  {
    if names != [] {
      if Clashes(st.top, names[0].orig) {
        MergeGrows(st.Report(AlreadyBound(names[0].orig)), names[1..]);
      } else {
        MergeGrows(st.(top := st.top + [names[0]]), names[1..]);
      }
    }
  }

  /** No pattern takes bindings out of a scope. */
  lemma {:induction false} PatternGrows(below: seq<seq<Binding>>, st: State, p: Pattern<string>)
    ensures |st.top| <= |VisitPattern(below, st, p).0.top|
    decreases p, 1
  {
    match p
    case Binder(_, _) =>
    case PlainPattern(_, parts) => PatternsGrow(below, st, parts);
    case OrPattern(first, rest) =>
      var st1 := VisitPattern(below + [st.top], st.(top := []), first).0;
      MergeGrows(VisitAlternatives(below + [st.top], st1, rest).0.(top := st.top), st1.top);
  }

  lemma {:induction false} PatternsGrow(below: seq<seq<Binding>>, st: State, ps: seq<Pattern<string>>)
    ensures |st.top| <= |VisitPatterns(below, st, ps).0.top|
    decreases ps, 0
  {
    if ps != [] {
      PatternGrows(below, st, ps[0]);
      PatternsGrow(below, VisitPattern(below, st, ps[0]).0, ps[1..]);
    }
  }

  ghost predicate Marked(before: seq<Binding>, after: seq<Binding>, names: set<string>) {
    && |after| == |before|
    && forall i :: 0 <= i < |before| ==>
      after[i] == before[i].(seen := before[i].seen || before[i].orig in names)
  }

  /** In a borrowed scope a pattern either marks its names as seen and does nothing else,
      or leaves a trace: a report or a larger scope. */
  ghost predicate Borrows(st: State, st': State, fits: bool, names: set<string>) {
    if fits && names <= OrigsIn(st.top) then
      st'.errors == st.errors && Marked(st.top, st'.top, names)
    else
      st'.errors != st.errors || |st'.top| > |st.top|
  }

  lemma MarkedBorrowed(before: seq<Binding>, after: seq<Binding>, names: set<string>)
    requires Borrowed(before) && Marked(before, after, names)
    ensures Borrowed(after) && OrigsIn(after) == OrigsIn(before)
  {
    forall b | b in before ensures b.orig in OrigsIn(after) {
      var i :| 0 <= i < |before| && before[i] == b;
      assert after[i] in after;
    }
    forall b | b in after ensures b.orig in OrigsIn(before) && b.preseeded {
      var i :| 0 <= i < |after| && after[i] == b;
      assert before[i] in before;
    }
    forall i, j | 0 <= i < j < |after| ensures after[i].orig != after[j].orig {
      assert before[i].orig != before[j].orig;
    }
  }

  lemma BinderBorrows(below: seq<seq<Binding>>, st: State, name: string)
    requires Borrowed(st.top)
    ensures Borrows(st, Declare(below, st, name).0, true, Names(Binder(false, name)))
  {
    OrigsInIs(st.top, name);
    if !IsKeyword(name) && name in Origs(st.top) {
      var j := IndexOf(Origs(st.top), name).value;
      assert st.top[j] in st.top && st.top[j].orig == name;
      assert forall i :: 0 <= i < |st.top| && i != j ==> st.top[i].orig != name;
    }
  }

  lemma {:induction false} PatternBorrows(below: seq<seq<Binding>>, st: State, p: Pattern<string>)
    requires Borrowed(st.top)
    ensures Borrows(st, VisitPattern(below, st, p).0, NestedOrsBindNothing(p), Names(p))
    decreases p, 3
  {
    match p
    case Binder(_, name) => BinderBorrows(below, st, name);
    case PlainPattern(_, parts) => PatternsBorrow(below, st, parts);
    case OrPattern(first, rest) =>
      AlternativesTogether(below + [st.top], st.(top := []), first, rest, p);
      var st1 := VisitPattern(below + [st.top], st.(top := []), first).0;
      var st2 := VisitAlternatives(below + [st.top], st1, rest).0;
      OrNames(first, rest);
      MergeGrows(st2.(top := st.top), st1.top);
      EmptyScope(st1.top);
      if Names(p) == {} {
        NamelessIsFine(p);
      }
  }

  lemma EmptyScope(scope: seq<Binding>)
    ensures OrigsIn(scope) == {} <==> scope == []
  {
    if scope != [] {
      assert scope[0].orig in OrigsIn(scope);
    }
  }

  lemma {:induction false} PatternsBorrow(below: seq<seq<Binding>>, st: State, ps: seq<Pattern<string>>)
    requires Borrowed(st.top)
    ensures Borrows(st, VisitPatterns(below, st, ps).0, forall q <- ps :: NestedOrsBindNothing(q), NamesOfAll(ps))
    decreases ps, 0
  {
    if ps != [] {
      PatternBorrows(below, st, ps[0]);
      var st1 := VisitPattern(below, st, ps[0]).0;
      PatternGrows(below, st, ps[0]);
      PatternsGrow(below, st1, ps[1..]);
      if NestedOrsBindNothing(ps[0]) && Names(ps[0]) <= OrigsIn(st.top) {
        MarkedBorrowed(st.top, st1.top, Names(ps[0]));
        PatternsBorrow(below, st1, ps[1..]);
      }
    }
  }

  /** Later alternatives pass exactly when each binds the first one's names and keeps
      its own or-patterns free of names. */
  lemma {:induction false} AlternativesAreJudged(below: seq<seq<Binding>>, st: State, ps: seq<Pattern<string>>)
    requires Ordinary(st.top)
    ensures VisitAlternatives(below, st, ps).0.errors == st.errors <==> AllAgree(OrigsIn(st.top), ps)
    decreases ps, 0
  {
    if ps != [] {
      AlternativeIsJudged(below, st, ps[0]);
      AlternativesAreJudged(below, VisitAlternative(below, st, ps[0]).0, ps[1..]);
    }
  }

  lemma {:induction false} AlternativeIsJudged(below: seq<seq<Binding>>, st: State, p: Pattern<string>)
    requires Ordinary(st.top)
    ensures VisitAlternative(below, st, p).0.errors == st.errors <==>
      Names(p) == OrigsIn(st.top) && NestedOrsBindNothing(p)
    decreases p, 4
  {
    var start := st.(top := Preseed(st.top));
    PreseedOrigs(st.top);
    PatternBorrows(below, start, p);
    if NestedOrsBindNothing(p) && Names(p) <= OrigsIn(st.top) {
      MarkedMatches(st.top, VisitPattern(below, start, p).0.top, Names(p));
    }
  }

  lemma MarkedMatches(names: seq<Binding>, scope: seq<Binding>, seen: set<string>)
    requires Marked(Preseed(names), scope, seen) && seen <= OrigsIn(names)
    ensures Mismatched(scope, names) <==> seen != OrigsIn(names)
  {
    if seen == OrigsIn(names) {
      forall b | b in scope ensures b.seen {
        var i :| 0 <= i < |scope| && scope[i] == b;
        assert names[i] in names;
      }
    } else {
      var name :| name in OrigsIn(names) && name !in seen;
      var i :| 0 <= i < |names| && names[i].orig == name;
      assert scope[i] in scope && scope[i].preseeded && !scope[i].seen;
    }
  }

  lemma PreseedOrigs(names: seq<Binding>)
    ensures OrigsIn(Preseed(names)) == OrigsIn(names)
  {
    forall n ensures n in OrigsIn(Preseed(names)) <==> n in OrigsIn(names) {
      OrigsInIs(names, n);
      OrigsInIs(Preseed(names), n);
      assert Origs(Preseed(names)) == Origs(names);
    }
  }

  // ----- Trees and whole programs -----

  lemma {:induction false} TreeIsJudged(below: seq<seq<Binding>>, st: State, t: Tree<string>)
    requires Ordinary(st.top)
    ensures Judged(st, VisitTree(below, st, t).0, WellBound(t), Added(t))
    decreases t, 1
  {
    match t
    case Use(_) =>
    case Bind(p) => PatternIsJudged(below, st, p);
    case Group(_, parts) => TreesAreJudged(below, st, parts);
    case Scope(_, parts) => TreesAreJudged(below + [st.top], st.(top := []), parts);
  }

  lemma {:induction false} TreesAreJudged(below: seq<seq<Binding>>, st: State, ts: seq<Tree<string>>)
    requires Ordinary(st.top)
    ensures Judged(st, VisitTrees(below, st, ts).0, AllWellBound(ts), AddedByAll(ts))
    decreases ts, 0
  {
    if ts != [] {
      TreeIsJudged(below, st, ts[0]);
      TreesAreJudged(below, VisitTree(below, st, ts[0]).0, ts[1..]);
    }
  }

  /** The pass reports nothing exactly on the well-bound programs. */
  lemma AcceptedExactlyWhenWellBound(t: Tree<string>)
    ensures Run(t).0.errors == [] <==> WellBound(t)
  {
    TreeIsJudged([], INITIAL, t);
  }

  /** The interface says that a name bound twice in one pattern is an error, and so it is in
      `(x, x)`; a later alternative may do it, as in `(x, _) | (x, x)`. */
  lemma RepeatedNameInLaterAlternative()
    ensures var x := Binder(false, "x");
      var once := PlainPattern(TuplePatternForm(None), [x, PlainPattern(WildcardForm, [])]);
      var twice := PlainPattern(TuplePatternForm(None), [x, x]);
      && Run(Bind(twice)).0.errors != []
      && Run(Bind(OrPattern(once, [twice]))).0.errors == []
  {
    var x: Pattern<string> := Binder(false, "x");
    var wild: Pattern<string> := PlainPattern(WildcardForm, []);
    var once := PlainPattern(TuplePatternForm(None), [x, wild]);
    var twice := PlainPattern(TuplePatternForm(None), [x, x]);
    TwoNames(x, x);
    TwoNames(x, wild);
    assert NestedOrsBindNothing(twice);
    AcceptedExactlyWhenWellBound(Bind(twice));
    AcceptedExactlyWhenWellBound(Bind(OrPattern(once, [twice])));
  }

  lemma TwoNames(p: Pattern<string>, q: Pattern<string>)
    ensures NamesOfAll([p, q]) == Names(p) + Names(q)
    ensures WellBoundPatterns([p, q]) <==> WellBoundPattern(p) && WellBoundPattern(q) && Names(p) !! Names(q)
  {
    assert [p, q][1..] == [q] && [q][1..] == [];
    assert NamesOfAll([q]) == Names(q) + NamesOfAll([]);
    assert WellBoundPatterns([q]) <==> WellBoundPattern(q);
  }

  /** The interface asks the alternatives to bind identical names; those of `x | (x | x)` do,
      the inner pattern is fine by itself, and the pass still reports a mismatch. */
  lemma NestedOrInLaterAlternative()
    ensures var x := Binder(false, "x");
      var inner := OrPattern(x, [x]);
      && Names(inner) == Names(x)
      && Run(Bind(inner)).0.errors == []
      && Run(Bind(OrPattern(x, [inner]))).0.errors != []
  {
    var x: Pattern<string> := Binder(false, "x");
    var inner := OrPattern(x, [x]);
    assert NamesOfAll([x]) == {"x"};
    assert inner in [inner] && !NestedOrsBindNothing(inner);
    AcceptedExactlyWhenWellBound(Bind(inner));
    AcceptedExactlyWhenWellBound(Bind(OrPattern(x, [inner])));
  }
}
