/** Renaming preserves meaning: a program the pass accepts has the same name-free form
    before and after. */
module RenamingMeaning {
  import opened Options
  import opened Spelling
  import opened Scoping
  import opened Renaming

  // ----- The invariant of the scope stack -----

  ghost predicate IsMinted(name: string, orig: string, bound: nat) {
    exists n: nat :: n < bound && name == Minted(orig, n)
  }

  /** A live binding keeps its source name or got a minted one. */
  ghost predicate Honest(b: Binding, counter: nat) {
    && IsSource(b.orig)
    && !IsKeyword(b.orig)
    && (b.spelled == b.orig || IsMinted(b.spelled, b.orig, counter))
  }

  function SpeltIn(scope: seq<Binding>): set<string> { set b | b in scope :: b.spelled }

  /** Every name the open scopes spell. */
  function Spelt(scopes: seq<seq<Binding>>): set<string> {
    if scopes == [] then {} else Spelt(scopes[..|scopes| - 1]) + SpeltIn(scopes[|scopes| - 1])
  }

  ghost predicate SpeltApart(scope: seq<Binding>) {
    forall i, j :: 0 <= i < j < |scope| ==> scope[i].spelled != scope[j].spelled
  }

  /** A scope that spells its bindings apart, and apart from the names taken below it. */
  ghost predicate Fits(taken: set<string>, scope: seq<Binding>, counter: nat) {
    SpeltApart(scope) && forall b <- scope :: Honest(b, counter) && b.spelled !in taken
  }

  /** No two live bindings are spelled alike. */
  ghost predicate Sound(scopes: seq<seq<Binding>>, counter: nat)
    decreases |scopes|, 0
  {
    scopes == [] || Stacked(scopes[..|scopes| - 1], scopes[|scopes| - 1], counter)
  }

  ghost predicate Stacked(below: seq<seq<Binding>>, top: seq<Binding>, counter: nat)
    decreases |below|, 1
  {
    Sound(below, counter) && Fits(Spelt(below), top, counter)
  }

  lemma PushSound(below: seq<seq<Binding>>, top: seq<Binding>, counter: nat)
    requires Stacked(below, top, counter)
    ensures Sound(below + [top], counter) && Stacked(below + [top], [], counter)
    ensures Spelt(below + [top]) == Spelt(below) + SpeltIn(top)
  {
    assert (below + [top])[..|below|] == below;
  }

  lemma {:induction false} CounterGrows(scopes: seq<seq<Binding>>, counter: nat, counter': nat)
    requires Sound(scopes, counter) && counter <= counter'
    ensures Sound(scopes, counter')
  {
    if scopes != [] {
      CounterGrows(scopes[..|scopes| - 1], counter, counter');
    }
  }

  // ----- Spellings -----

  lemma MintedIsNotKeyword(name: string, n: nat)
    ensures !IsKeyword(Minted(name, n))
  {
    assert forall k: string :: IsKeyword(k) ==> IsSource(k);
  }

  lemma HonestSpelling(b: Binding, counter: nat)
    requires Honest(b, counter)
    ensures !IsKeyword(b.spelled)
    ensures IsSource(b.spelled) ==> b.spelled == b.orig
  {
    if b.spelled != b.orig {
      var n: nat :| n < counter && b.spelled == Minted(b.orig, n);
      MintedIsNotKeyword(b.orig, n);
    }
  }

  /** A spelling not minted yet is not in use. */
  lemma NextMintIsNew(b: Binding, counter: nat, name: string)
    requires Honest(b, counter) && IsSource(name)
    ensures b.spelled != Minted(name, counter)
  {
    if b.spelled != b.orig {
      var n: nat :| n < counter && b.spelled == Minted(b.orig, n);
      if b.spelled == Minted(name, counter) {
        MintedInjective(b.orig, n, name, counter);
      }
    }
  }

  lemma SpeltAppend(a: seq<Binding>, b: seq<Binding>)
    ensures SpeltIn(a + b) == SpeltIn(a) + SpeltIn(b)
  {
  }

  lemma SameSpelt(a: seq<Binding>, b: seq<Binding>)
    requires Spellings(a) == Spellings(b)
    ensures SpeltIn(a) == SpeltIn(b)
  {
    assert forall n :: n in SpeltIn(a) <==> n in Spellings(a) by { SpeltInIs(a); }
    assert forall n :: n in SpeltIn(b) <==> n in Spellings(b) by { SpeltInIs(b); }
  }

  lemma SpeltInIs(scope: seq<Binding>)
    ensures forall n :: n in SpeltIn(scope) <==> n in Spellings(scope)
  {
    forall n ensures n in SpeltIn(scope) <==> n in Spellings(scope) {
      if n in SpeltIn(scope) {
        var i :| 0 <= i < |scope| && scope[i].spelled == n;
        assert Spellings(scope)[i] == n;
      }
      if n in Spellings(scope) {
        var i :| 0 <= i < |scope| && Spellings(scope)[i] == n;
        assert scope[i] in scope;
      }
    }
  }

  lemma OrigsIs(scope: seq<Binding>, name: string)
    ensures name in Origs(scope) <==> exists b <- scope :: b.orig == name
  {
    if name in Origs(scope) {
      var i :| 0 <= i < |scope| && Origs(scope)[i] == name;
      assert scope[i] in scope;
    }
    if b :| b in scope && b.orig == name {
      var i :| 0 <= i < |scope| && scope[i] == b;
      assert Origs(scope)[i] == name;
    }
  }

  // ----- Uses -----

  /** Lookups: the source name and its new spelling find the same binding. */
  lemma {:induction false} LookupKeepsMeaning(scopes: seq<seq<Binding>>, counter: nat, name: string)
    requires Sound(scopes, counter) && IsSource(name)
    ensures Resolve(OrigScopes(scopes), name) == Resolve(SpelledScopes(scopes), Lookup(scopes, name))
    ensures Lookup(scopes, name) == name || Lookup(scopes, name) in Spelt(scopes)
  {
    if scopes != [] && !IsKeyword(name) {
      var below, top := scopes[..|scopes| - 1], scopes[|scopes| - 1];
      assert OrigScopes(scopes)[..|below|] == OrigScopes(below);
      assert SpelledScopes(scopes)[..|below|] == SpelledScopes(below);
      OrigsIs(top, name);
      SpeltInIs(top);
      if name in Origs(top) {
        var j := IndexOf(Origs(top), name).value;
        HonestSpelling(top[j], counter);
        TopIndex(top, j);
      } else {
        forall b | b in top ensures b.spelled != name {
          HonestSpelling(b, counter);
        }
        LookupKeepsMeaning(below, counter, name);
        assert Lookup(scopes, name) == Lookup(below, name);
        assert Lookup(scopes, name) !in SpeltIn(top);
        LookupIsNotKeyword(below, counter, name);
      }
    }
  }

  lemma {:induction false} LookupIsNotKeyword(scopes: seq<seq<Binding>>, counter: nat, name: string)
    requires Sound(scopes, counter) && !IsKeyword(name)
    ensures !IsKeyword(Lookup(scopes, name))
  {
    if scopes != [] {
      var below, top := scopes[..|scopes| - 1], scopes[|scopes| - 1];
      assert OrigScopes(scopes)[..|below|] == OrigScopes(below);
      if name in Origs(top) {
        HonestSpelling(top[IndexOf(Origs(top), name).value], counter);
      } else {
        LookupIsNotKeyword(below, counter, name);
      }
    }
  }

  lemma TopIndex(top: seq<Binding>, j: nat)
    requires SpeltApart(top) && j < |top|
    ensures IndexOf(Spellings(top), top[j].spelled) == Some(j)
  {
    assert Spellings(top)[j] == top[j].spelled;
    assert top[j].spelled in Spellings(top);
  }

  // ----- Binders -----

  /** What a declaration must do: keep the invariant, and mean the same in both spellings. */
  ghost predicate DeclareKeeps(below: seq<seq<Binding>>, st: State, name: string) {
    var (st', name') := Declare(below, st, name);
    var before, after := Introduce(|below|, Origs(st.top), name), Introduce(|below|, Spellings(st.top), name');
    && Stacked(below, st'.top, st'.counter)
    && before.0 == Origs(st'.top)
    && after.0 == Spellings(st'.top)
    && before.1 == after.1
  }

  lemma {:induction false} NotSpeltBelow(below: seq<seq<Binding>>, counter: nat, name: string)
    requires Sound(below, counter) && IsSource(name)
    ensures Minted(name, counter) !in Spelt(below)
    ensures name in Spelt(below) ==> Shadows(below, name)
  {
    if below != [] {
      var rest, top := below[..|below| - 1], below[|below| - 1];
      NotSpeltBelow(rest, counter, name);
      OrigsIs(top, name);
      forall b | b in top
        ensures b.spelled != Minted(name, counter) && (b.spelled == name ==> b.orig == name)
      {
        HonestSpelling(b, counter);
        NextMintIsNew(b, counter, name);
      }
      assert top in below;
    }
  }

  /** A name new to its scope gets a spelling nothing live has. */
  lemma NewSpelling(below: seq<seq<Binding>>, st: State, name: string)
    requires Stacked(below, st.top, st.counter)
    requires IsSource(name) && !IsKeyword(name) && name !in Origs(st.top)
    ensures var (st', name') := Declare(below, st, name);
      && Honest(Binding(name, name', false, false), st'.counter)
      && !IsKeyword(name')
      && name' !in Spelt(below)
      && name' !in SpeltIn(st.top)
  {
    var (st', name') := Declare(below, st, name);
    NotSpeltBelow(below, st.counter, name);
    HonestSpelling(Binding(name, name', false, false), st'.counter);
    OrigsIs(st.top, name);
    forall b | b in st.top ensures b.spelled != name' {
      HonestSpelling(b, st.counter);
      NextMintIsNew(b, st.counter, name);
    }
  }

  lemma DeclareNewKeepsMeaning(below: seq<seq<Binding>>, st: State, name: string)
    requires Stacked(below, st.top, st.counter)
    requires IsSource(name) && !IsKeyword(name) && name !in Origs(st.top)
    ensures DeclareKeeps(below, st, name)
  {
    var (st', name') := Declare(below, st, name);
    var b := Binding(name, name', false, false);
    NewSpelling(below, st, name);
    SpeltInIs(st.top);
    CounterGrows(below, st.counter, st'.counter);
    assert forall i :: 0 <= i < |st.top| ==> st.top[i] in st.top;
    assert Origs(st.top + [b]) == Origs(st.top) + [name];
    assert Spellings(st.top + [b]) == Spellings(st.top) + [name'];
  }

  lemma DeclareKeepsMeaning(below: seq<seq<Binding>>, st: State, name: string)
    requires Stacked(below, st.top, st.counter) && IsSource(name)
    requires Declare(below, st, name).0.errors == st.errors
    ensures DeclareKeeps(below, st, name)
  {
    if !IsKeyword(name) {
      if name in Origs(st.top) {
        var j := IndexOf(Origs(st.top), name).value;
        assert st.top[j] in st.top;
        HonestSpelling(st.top[j], st.counter);
        FlagsDoNotMatter(below, st.top, st.top[j := st.top[j].(seen := true)], st.counter);
        TopIndex(st.top, j);
      } else {
        DeclareNewKeepsMeaning(below, st, name);
      }
    }
  }

  /** Scopes with the same names mean the same, whatever their flags. */
  lemma FlagsDoNotMatter(below: seq<seq<Binding>>, top: seq<Binding>, top': seq<Binding>, counter: nat)
    requires Stacked(below, top, counter) && |top'| == |top|
    requires forall i :: 0 <= i < |top| ==> top'[i].orig == top[i].orig && top'[i].spelled == top[i].spelled
    ensures Stacked(below, top', counter)
    ensures Origs(top') == Origs(top) && Spellings(top') == Spellings(top)
  {
    forall b | b in top' ensures Honest(b, counter) && b.spelled !in Spelt(below) {
      var i :| 0 <= i < |top'| && top'[i] == b;
      assert top[i] in top;
    }
  }

  // ----- Patterns -----

  ghost predicate PatternKeeps(below: seq<seq<Binding>>, st: State, p: Pattern<string>) {
    var (st', p') := VisitPattern(below, st, p);
    var before, after := PatternRefs(|below|, Origs(st.top), p), PatternRefs(|below|, Spellings(st.top), p');
    && Stacked(below, st'.top, st'.counter)
    && before.0 == Origs(st'.top)
    && after.0 == Spellings(st'.top)
    && before.1 == after.1
  }

  lemma {:induction false} PatternKeepsMeaning(below: seq<seq<Binding>>, st: State, p: Pattern<string>)
    requires Stacked(below, st.top, st.counter) && FromSourcePattern(p)
    requires VisitPattern(below, st, p).0.errors == st.errors
    ensures PatternKeeps(below, st, p)
    decreases p, 1
  {
    match p
    case Binder(_, name) => DeclareKeepsMeaning(below, st, name);
    case PlainPattern(_, parts) => PatternsKeepMeaning(below, st, parts);
    case OrPattern(first, rest) => OrKeepsMeaning(below, st, first, rest, p);
  }

  lemma {:induction false} PatternsKeepMeaning(below: seq<seq<Binding>>, st: State, ps: seq<Pattern<string>>)
    requires Stacked(below, st.top, st.counter) && forall q <- ps :: FromSourcePattern(q)
    requires VisitPatterns(below, st, ps).0.errors == st.errors
    ensures var (st', ps') := VisitPatterns(below, st, ps);
      var before, after := PatternsRefs(|below|, Origs(st.top), ps), PatternsRefs(|below|, Spellings(st.top), ps');
      && Stacked(below, st'.top, st'.counter)
      && before.0 == Origs(st'.top)
      && after.0 == Spellings(st'.top)
      && before.1 == after.1
    decreases ps, 0
  {
    if ps != [] {
      PatternKeepsMeaning(below, st, ps[0]);
      PatternsKeepMeaning(below, VisitPattern(below, st, ps[0]).0, ps[1..]);
    }
  }

  lemma {:induction false} OrKeepsMeaning(
      below: seq<seq<Binding>>, st: State, first: Pattern<string>, rest: seq<Pattern<string>>, p: Pattern<string>)
    requires p == OrPattern(first, rest)
    requires Stacked(below, st.top, st.counter) && FromSourcePattern(p)
    requires VisitPattern(below, st, p).0.errors == st.errors
    ensures PatternKeeps(below, st, p)
    decreases p, 0
  {
    PushSound(below, st.top, st.counter);
    var inner := below + [st.top];
    var (st1, first') := VisitPattern(inner, st.(top := []), first);
    PatternKeepsMeaning(inner, st.(top := []), first);
    var (st2, rest') := VisitAlternatives(inner, st1, rest);
    AlternativesKeepMeaning(inner, st1, rest);
    MergeAppends(st2.(top := st.top), st1.top);
    CounterGrows(below, st.counter, st2.counter);
    MergedFits(below, st.top, st1.top, st.counter, st2.counter);
    assert Origs([]) == [] && Spellings([]) == [];
  }

  lemma {:induction false} AlternativesKeepMeaning(below: seq<seq<Binding>>, st: State, ps: seq<Pattern<string>>)
    requires Stacked(below, st.top, st.counter) && forall q <- ps :: FromSourcePattern(q)
    requires VisitAlternatives(below, st, ps).0.errors == st.errors
    ensures AlternativesRefs(|below|, Origs(st.top), ps)
         == AlternativesRefs(|below|, Spellings(st.top), VisitAlternatives(below, st, ps).1)
    ensures Stacked(below, st.top, VisitAlternatives(below, st, ps).0.counter)
    decreases ps, 0
  {
    if ps != [] {
      FlagsDoNotMatter(below, st.top, Preseed(st.top), st.counter);
      PatternKeepsMeaning(below, st.(top := Preseed(st.top)), ps[0]);
      var st1 := VisitAlternative(below, st, ps[0]).0;
      CounterGrows(below, st.counter, st1.counter);
      AlternativesKeepMeaning(below, st1, ps[1..]);
    }
  }

  /** Without a report, merging appends everything. */
  lemma {:induction false} MergeAppends(st: State, names: seq<Binding>)
    requires Merge(st, names).errors == st.errors
    ensures Merge(st, names) == st.(top := st.top + names)
    decreases |names|
  {
    if names == [] {
      assert st.top + names == st.top;
    } else {
      MergeAppends(st.(top := st.top + [names[0]]), names[1..]);
      assert st.top + [names[0]] + names[1..] == st.top + names;
    }
  }

  lemma MergedFits(below: seq<seq<Binding>>, top: seq<Binding>, names: seq<Binding>, counter: nat, counter': nat)
    requires counter <= counter' && Stacked(below, top, counter) && Stacked(below + [top], names, counter')
    ensures Stacked(below, top + names, counter')
    ensures Origs(top + names) == Origs(top) + Origs(names)
    ensures Spellings(top + names) == Spellings(top) + Spellings(names)
  {
    PushSound(below, top, counter);
    CounterGrows(below, counter, counter');
    var merged := top + names;
    forall i, j | 0 <= i < j < |merged| ensures merged[i].spelled != merged[j].spelled {
      if i < |top| <= j {
        assert top[i] in top && names[j - |top|] in names;
      }
    }
    forall b | b in merged ensures Honest(b, counter') && b.spelled !in Spelt(below) {
    }
  }

  // ----- Trees and whole programs -----

  ghost predicate TreeKeeps(below: seq<seq<Binding>>, st: State, t: Tree<string>) {
    var (st', t') := VisitTree(below, st, t);
    var before, after :=
      TreeRefs(OrigScopes(below), Origs(st.top), t), TreeRefs(SpelledScopes(below), Spellings(st.top), t');
    && Stacked(below, st'.top, st'.counter)
    && before.0 == Origs(st'.top)
    && after.0 == Spellings(st'.top)
    && before.1 == after.1
  }

  lemma PushedNames(below: seq<seq<Binding>>, top: seq<Binding>)
    ensures OrigScopes(below + [top]) == OrigScopes(below) + [Origs(top)]
    ensures SpelledScopes(below + [top]) == SpelledScopes(below) + [Spellings(top)]
  {
  }

  lemma {:induction false} TreeKeepsMeaning(below: seq<seq<Binding>>, st: State, t: Tree<string>)
    requires Stacked(below, st.top, st.counter) && FromSource(t)
    requires VisitTree(below, st, t).0.errors == st.errors
    ensures TreeKeeps(below, st, t)
    decreases t, 1
  {
    PushSound(below, st.top, st.counter);
    PushedNames(below, st.top);
    match t
    case Use(name) => LookupKeepsMeaning(below + [st.top], st.counter, name);
    case Bind(p) => PatternKeepsMeaning(below, st, p);
    case Group(_, parts) => TreesKeepMeaning(below, st, parts);
    case Scope(_, parts) =>
      TreesKeepMeaning(below + [st.top], st.(top := []), parts);
      CounterGrows(below, st.counter, VisitTree(below, st, t).0.counter);
      assert Origs([]) == [] && Spellings([]) == [];
  }

  lemma {:induction false} TreesKeepMeaning(below: seq<seq<Binding>>, st: State, ts: seq<Tree<string>>)
    requires Stacked(below, st.top, st.counter) && forall u <- ts :: FromSource(u)
    requires VisitTrees(below, st, ts).0.errors == st.errors
    ensures var (st', ts') := VisitTrees(below, st, ts);
      var before, after :=
        TreesRefs(OrigScopes(below), Origs(st.top), ts), TreesRefs(SpelledScopes(below), Spellings(st.top), ts');
      && Stacked(below, st'.top, st'.counter)
      && before.0 == Origs(st'.top)
      && after.0 == Spellings(st'.top)
      && before.1 == after.1
    decreases ts, 0
  {
    if ts != [] {
      TreeKeepsMeaning(below, st, ts[0]);
      TreesKeepMeaning(below, VisitTree(below, st, ts[0]).0, ts[1..]);
    }
  }

  /** On every program from source text that the pass accepts, each use and each binder
      stands for the same binding before and after, and nothing else has changed. */
  lemma RunKeepsMeaning(t: Tree<string>)
    requires FromSource(t)
    requires Run(t).0.errors == []
    ensures NameFree(Run(t).1) == NameFree(t)
  {
    TreeKeepsMeaning([], INITIAL, t);
    assert OrigScopes([]) == [] && SpelledScopes([]) == [] && Origs([]) == [] && Spellings([]) == [];
  }
}
