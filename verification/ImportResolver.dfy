/** The import resolver: chases re-exports from module to module, with a mark on each. */
module ImportResolver {
  import opened Options
  import opened ModuleTree
  import opened ModulePaths
  import opened Imports
  import A = Ast

  /** The marks of a module: not begun, under way, or done. */
  newtype Mark = k: int | 0 <= k <= 2
  const FRESH: Mark := 0
  const UNDERWAY: Mark := 1
  const DONE: Mark := 2

  function CountFresh(marks: seq<Mark>): nat {
    if marks == [] then 0 else CountFresh(marks[..|marks| - 1]) + if marks[|marks| - 1] == FRESH then 1 else 0
  }

  lemma {:induction false} FreshShrinks(before: seq<Mark>, after: seq<Mark>)
    requires |before| == |after| && forall x | 0 <= x < |before| :: before[x] != FRESH ==> after[x] != FRESH
    ensures CountFresh(after) <= CountFresh(before)
    ensures (exists x :: 0 <= x < |before| && before[x] == FRESH != after[x]) ==> CountFresh(after) < CountFresh(before)
  {
    if before != [] {
      FreshShrinks(before[..|before| - 1], after[..|after| - 1]);
      assert forall x | 0 <= x < |before| - 1 :: before[x] == before[..|before| - 1][x];
      assert forall x | 0 <= x < |before| - 1 :: after[x] == after[..|after| - 1][x];
    }
  }

  /** What a call may do to a module that it did not begin with: nothing, finish the mark of
      one under way, or see to all its uses if it was fresh. */
  predicate MayBecome(items: seq<A.Item>, mark: Mark, done: seq<nat>, mark': Mark, done': seq<nat>) {
    if mark == FRESH && mark' != FRESH then mark' == DONE && done' == Order(items)
    else done' == done && (mark == FRESH <==> mark' == FRESH) && (mark == DONE ==> mark' == DONE)
  }

  /** No two imports with the same name and namespace, and none with that of a local item. */
  ghost predicate Unambiguous(imports: seq<Import>, locals: Locals) {
    && (forall i | 0 <= i < |imports| :: !locals.Has(imports[i].name, imports[i].ns))
    && forall i, j | 0 <= i < j < |imports| :: imports[i].name != imports[j].name || imports[i].ns != imports[j].ns
  }

  /** The imports of a module are justified and unambiguous. */
  ghost predicate IsSound(p: Package, m: nat, imports: seq<Import>, locals: Locals)
    requires p.Valid()
  {
    (forall i | 0 <= i < |imports| :: IsJustified(p, m, imports[i])) && Unambiguous(imports, locals)
  }

  lemma SoundWithOneMore(p: Package, m: nat, imports: seq<Import>, locals: Locals, i: Import)
    requires p.Valid() && IsSound(p, m, imports, locals) && IsJustified(p, m, i) && !IsBound(imports, locals, i.name, i.ns)
    ensures IsSound(p, m, imports + [i], locals)
  {
  }

  lemma BoundStays(before: seq<Import>, after: seq<Import>, locals: Locals, name: string, ns: Namespace)
    requires before <= after && IsBound(before, locals, name, ns)
    ensures IsBound(after, locals, name, ns)
  {
    if !locals.Has(name, ns) {
      var i :| 0 <= i < |before| && before[i].name == name && before[i].ns == ns;
      assert after[i] == before[i];
    }
  }

  /** Is the name taken, by a local item or an import? */
  predicate IsBound(imports: seq<Import>, locals: Locals, name: string, ns: Namespace) {
    locals.Has(name, ns) || exists i | 0 <= i < |imports| :: imports[i].name == name && imports[i].ns == ns
  }

  predicate IsExported(imports: seq<Import>, name: string, ns: Namespace) {
    exists i | 0 <= i < |imports| :: imports[i].isPub && imports[i].name == name && imports[i].ns == ns
  }

  /** Is the name bound, and by a public import if it has to be one? */
  predicate Settles(imports: seq<Import>, locals: Locals, name: string, ns: Namespace, isPub: bool) {
    IsBound(imports, locals, name, ns) && (isPub && !locals.Has(name, ns) ==> IsExported(imports, name, ns))
  }

  lemma SettlesStays(before: seq<Import>, after: seq<Import>, locals: Locals, name: string, ns: Namespace, isPub: bool)
    requires before <= after && Settles(before, locals, name, ns, isPub)
    ensures Settles(after, locals, name, ns, isPub)
  {
    BoundStays(before, after, locals, name, ns);
    if isPub && !locals.Has(name, ns) {
      var i :| 0 <= i < |before| && before[i].isPub && before[i].name == name && before[i].ns == ns;
      assert after[i] == before[i];
    }
  }

  predicate AllPub(imports: seq<Import>) {
    forall i | 0 <= i < |imports| :: imports[i].isPub
  }

  /** Where the run stands; `ranked` if no chase can come back to where it began. */
  datatype State = State(imports: seq<seq<Import>>, marks: seq<Mark>, done: seq<seq<nat>>, errors: nat, ranked: bool) {
    predicate Fits(p: Package) {
      |imports| == |marks| == |done| == p.Size()
    }
  }

  // ----- What has come of a use -----

  /** A member that the named module itself has in the namespace is bound; and if nothing at
      all has been reported, it is imported from there. */
  ghost predicate BringsLocal(p: Package, m: nat, use: A.Item, target: nat, ns: Namespace, imports: seq<Import>, errors: nat)
    requires p.Valid() && m < p.Size() && use.UseItem? && |use.path| > 0 && target < p.Size()
  {
    LocalsOf(p, target).Has(Member(use), ns) ==>
      && Settles(imports, LocalsOf(p, m), UseName(use), ns, use.isPub)
      && (errors == 0 ==> Import(UseName(use), ns, target, Member(use), use.isPub) in imports)
  }

  predicate HasNamed(imports: seq<Import>, name: string) {
    exists i <- imports :: i.name == name
  }

  /** What a use that has been seen to has brought: a local member of the named module, in
      every namespace it is in; and if nothing at all has been reported, some import. */
  ghost predicate Served(p: Package, m: nat, use: A.Item, imports: seq<Import>, errors: nat)
    requires p.Valid() && m < p.Size() && use.UseItem?
  {
    var target := Names(p, m, use.path);
    && (target.Some? ==> forall ns :: BringsLocal(p, m, use, target.value, ns, imports, errors))
    && (errors == 0 ==> target.Some? && HasNamed(imports, UseName(use)))
  }

  lemma BringsStays(p: Package, m: nat, use: A.Item, target: nat, ns: Namespace,
                    before: seq<Import>, errors: nat, after: seq<Import>, errors': nat)
    requires p.Valid() && m < p.Size() && use.UseItem? && |use.path| > 0 && target < p.Size()
    requires before <= after && errors <= errors' && BringsLocal(p, m, use, target, ns, before, errors)
    ensures BringsLocal(p, m, use, target, ns, after, errors')
  {
    if LocalsOf(p, target).Has(Member(use), ns) {
      SettlesStays(before, after, LocalsOf(p, m), UseName(use), ns, use.isPub);
    }
  }

  lemma ServedStays(p: Package, m: nat, use: A.Item, before: seq<Import>, errors: nat, after: seq<Import>, errors': nat)
    requires p.Valid() && m < p.Size() && use.UseItem? && before <= after && errors <= errors'
    requires Served(p, m, use, before, errors)
    ensures Served(p, m, use, after, errors')
  {
    var target := Names(p, m, use.path);
    if target.Some? {
      forall ns ensures BringsLocal(p, m, use, target.value, ns, after, errors') {
        BringsStays(p, m, use, target.value, ns, before, errors, after, errors');
      }
    }
  }

  /** From three namespaces, one after the other. */
  lemma LocalsServe(p: Package, m: nat, use: A.Item, target: nat, one: State, two: State, t: State)
    requires p.Valid() && m < p.Size() && use.UseItem? && Names(p, m, use.path) == Some(target)
    requires OnlyAdds(m, use, one, two) && OnlyAdds(m, use, two, t)
    requires BringsLocal(p, m, use, target, ModuleSpace, one.imports[m], one.errors)
    requires BringsLocal(p, m, use, target, TypeSpace, two.imports[m], two.errors)
    requires BringsLocal(p, m, use, target, ValueSpace, t.imports[m], t.errors)
    ensures (exists ns :: LocalsOf(p, target).Has(Member(use), ns)) ==> Served(p, m, use, t.imports[m], t.errors)
  {
    BringsStays(p, m, use, target, ModuleSpace, one.imports[m], one.errors, t.imports[m], t.errors);
    BringsStays(p, m, use, target, TypeSpace, two.imports[m], two.errors, t.imports[m], t.errors);
    forall ns ensures BringsLocal(p, m, use, target, ns, t.imports[m], t.errors) {
      match ns case ModuleSpace => case TypeSpace => case ValueSpace =>
    }
  }

  lemma InSomeSpace(l: Locals, name: string)
    ensures (exists ns :: l.Has(name, ns)) <==> l.Has(name, ModuleSpace) || l.Has(name, TypeSpace) || l.Has(name, ValueSpace)
  {
  }

  /** What is found among the exports is bound by the imports; and if nothing at all has been
      reported, what it stands for is imported. */
  ghost predicate Takes(use: A.Item, ns: Namespace, locals: Locals, exports: seq<Import>, imports: seq<Import>, errors: nat)
    requires use.UseItem? && |use.path| > 0
  {
    var e := FindExport(exports, Member(use), ns, 0);
    e.Some? ==>
      && Settles(imports, locals, UseName(use), ns, use.isPub)
      && (errors == 0 ==> Import(UseName(use), ns, e.value.target, e.value.member, use.isPub) in imports)
  }

  lemma TakesStays(use: A.Item, ns: Namespace, locals: Locals, exports: seq<Import>,
                   before: seq<Import>, errors: nat, after: seq<Import>, errors': nat)
    requires use.UseItem? && |use.path| > 0 && before <= after && errors <= errors'
    requires Takes(use, ns, locals, exports, before, errors)
    ensures Takes(use, ns, locals, exports, after, errors')
  {
    if FindExport(exports, Member(use), ns, 0).Some? {
      SettlesStays(before, after, locals, UseName(use), ns, use.isPub);
    }
  }

  /** A use of what the named module has not itself has met all the exports there will be. */
  ghost predicate LookedUp(p: Package, s: State, m: nat, use: A.Item)
    requires p.Valid() && s.Fits(p) && m < p.Size() && use.UseItem?
  {
    var target := Names(p, m, use.path);
    target.Some? && LacksLocal(p, target.value, Member(use)) ==>
      && s.marks[target.value] == DONE
      && forall ns :: Takes(use, ns, LocalsOf(p, m), s.imports[target.value], s.imports[m], s.errors)
  }

  ghost predicate ServedAt(p: Package, s: State, m: nat, k: nat)
    requires p.Valid() && s.Fits(p) && m < p.Size()
  {
    && k < |p.Items(m)| && p.Items(m)[k].UseItem? && Served(p, m, p.Items(m)[k], s.imports[m], s.errors)
    && (s.ranked ==> LookedUp(p, s, m, p.Items(m)[k]))
  }

  /** All uses that have been seen to are served. */
  ghost predicate AllServed(p: Package, s: State)
    requires p.Valid() && s.Fits(p)
  {
    forall m: nat, i: nat | m < p.Size() && i < |s.done[m]| :: ServedAt(p, s, m, s.done[m][i])
  }

  /** Modules that are done are left alone. */
  ghost predicate LeavesDone(p: Package, s: State, t: State)
    requires s.Fits(p) && t.Fits(p)
  {
    forall x: nat | x < p.Size() && s.marks[x] == DONE :: t.marks[x] == DONE && t.imports[x] == s.imports[x]
  }

  lemma LookedUpStays(p: Package, s: State, t: State, m: nat, use: A.Item)
    requires p.Valid() && s.Fits(p) && t.Fits(p) && m < p.Size() && use.UseItem? && LookedUp(p, s, m, use)
    requires LeavesDone(p, s, t) && s.errors <= t.errors && s.imports[m] <= t.imports[m]
    ensures LookedUp(p, t, m, use)
  {
    var target := Names(p, m, use.path);
    if target.Some? && LacksLocal(p, target.value, Member(use)) {
      forall ns ensures Takes(use, ns, LocalsOf(p, m), t.imports[target.value], t.imports[m], t.errors) {
        TakesStays(use, ns, LocalsOf(p, m), s.imports[target.value], s.imports[m], s.errors, t.imports[m], t.errors);
      }
    }
  }

  /** More imports and more errors do no harm. */
  lemma AllServedStays(p: Package, s: State, t: State)
    requires p.Valid() && s.Fits(p) && t.Fits(p) && AllServed(p, s) && t.ranked == s.ranked
    requires t.done == s.done && s.errors <= t.errors && forall x: nat | x < p.Size() :: s.imports[x] <= t.imports[x]
    requires s.ranked ==> LeavesDone(p, s, t)
    ensures AllServed(p, t)
  {
    forall m: nat, i: nat | m < p.Size() && i < |t.done[m]| ensures ServedAt(p, t, m, t.done[m][i]) {
      assert ServedAt(p, s, m, s.done[m][i]);
      var use := p.Items(m)[s.done[m][i]];
      ServedStays(p, m, use, s.imports[m], s.errors, t.imports[m], t.errors);
      if s.ranked { LookedUpStays(p, s, t, m, use); }
    }
  }

  lemma OneMoreServed(p: Package, s: State, m: nat, k: nat, t: State)
    requires p.Valid() && s.Fits(p) && t.Fits(p) && AllServed(p, s) && m < p.Size() && ServedAt(p, s, m, k)
    requires t == s.(done := s.done[m := s.done[m] + [k]])
    ensures AllServed(p, t)
  {
    forall x: nat, i: nat | x < p.Size() && i < |t.done[x]| ensures ServedAt(p, t, x, t.done[x][i]) {
      var k' := t.done[x][i];
      if x != m || i < |s.done[m]| {
        assert ServedAt(p, s, x, s.done[x][i]);
      }
      assert ServedAt(p, s, x, k');
      if s.ranked { LookedUpStays(p, s, t, x, p.Items(x)[k']); }
    }
  }

  /** Only fresh modules, and the one in hand, get imports; and without a cycle none under way
      is met again. */
  ghost predicate Leaves(p: Package, inHand: nat, s: State, t: State)
    requires s.Fits(p) && t.Fits(p)
  {
    && t.ranked == s.ranked
    && (forall x: nat | x < p.Size() && x != inHand && s.marks[x] != FRESH :: t.imports[x] == s.imports[x])
    && (s.ranked ==> forall x: nat | x < p.Size() :: s.marks[x] == UNDERWAY <==> t.marks[x] == UNDERWAY)
  }

  ghost predicate IsInHand(p: Package, rank: seq<nat>, marks: seq<Mark>, m: nat)
    requires p.Valid() && |marks| == p.Size()
  {
    && m < p.Size() && marks[m] != FRESH
    && (IsRanked(p, rank) ==>
          marks[m] == UNDERWAY && forall x: nat | x < p.Size() && marks[x] == UNDERWAY :: rank[m] <= rank[x])
  }

  lemma StaysInHand(p: Package, rank: seq<nat>, m: nat, inHand: nat, s: State, t: State)
    requires p.Valid() && s.Fits(p) && t.Fits(p) && IsInHand(p, rank, s.marks, m)
    requires s.ranked == IsRanked(p, rank) && Leaves(p, inHand, s, t) && t.marks[m] != FRESH
    ensures IsInHand(p, rank, t.marks, m)
  {
  }

  lemma LeavesFurther(p: Package, inHand: nat, s: State, t: State, u: State)
    requires s.Fits(p) && t.Fits(p) && u.Fits(p) && Leaves(p, inHand, s, t) && Leaves(p, inHand, t, u)
    requires forall x: nat | x < p.Size() && s.marks[x] != FRESH :: t.marks[x] != FRESH
    ensures Leaves(p, inHand, s, u)
  {
  }

  /** From one state to a later one: imports are only added, and modules, but for one, only
      get on as they may. */
  ghost predicate GoesOn(p: Package, except: nat, s: State, t: State)
    requires s.Fits(p) && t.Fits(p)
  {
    && s.errors <= t.errors
    && (forall x: nat | x < p.Size() :: s.imports[x] <= t.imports[x])
    && (forall x: nat | x < p.Size() && s.marks[x] != FRESH :: t.marks[x] != FRESH)
    && forall x: nat | x < p.Size() && x != except ::
         MayBecome(p.Items(x), s.marks[x], s.done[x], t.marks[x], t.done[x])
  }

  lemma GoesOnFurther(p: Package, except: nat, s: State, t: State, u: State)
    requires s.Fits(p) && t.Fits(p) && u.Fits(p) && GoesOn(p, except, s, t) && GoesOn(p, except, t, u)
    ensures GoesOn(p, except, s, u)
  {
    forall x: nat | x < p.Size() && x != except
      ensures MayBecome(p.Items(x), s.marks[x], s.done[x], u.marks[x], u.done[x])
    {
      assert MayBecome(p.Items(x), s.marks[x], s.done[x], t.marks[x], t.done[x]);
      assert MayBecome(p.Items(x), t.marks[x], t.done[x], u.marks[x], u.done[x]);
    }
  }

  lemma OneMoreDone(p: Package, m: nat, k: nat, s: State, t: State, u: State)
    requires s.Fits(p) && t.Fits(p) && u.Fits(p) && m < p.Size() && s.marks[m] != FRESH
    requires GoesOn(p, p.Size(), s, t) && u == t.(done := t.done[m := t.done[m] + [k]])
    ensures GoesOn(p, m, s, u) && u.done[m] == s.done[m] + [k]
    ensures u.marks[m] == DONE || u.marks[m] == s.marks[m]
  {
    assert MayBecome(p.Items(m), s.marks[m], s.done[m], t.marks[m], t.done[m]);
    forall x: nat | x < p.Size() && x != m
      ensures MayBecome(p.Items(x), s.marks[x], s.done[x], u.marks[x], u.done[x])
    {
      assert MayBecome(p.Items(x), s.marks[x], s.done[x], t.marks[x], t.done[x]);
    }
  }

  /** From before a module was begun with to after its end. */
  lemma AllUsesDone(p: Package, m: nat, s: State, start: State, end: State, t: State)
    requires s.Fits(p) && start.Fits(p) && end.Fits(p) && t.Fits(p) && m < p.Size()
    requires s.marks[m] == FRESH && start == s.(marks := s.marks[m := UNDERWAY]) && Leaves(p, m, start, end)
    requires s.done[m] == [] && GoesOn(p, m, start, end)
    requires end.done[m] == [] + UsesAmong(p.Items(m), true, |p.Items(m)|) + UsesAmong(p.Items(m), false, |p.Items(m)|)
    requires t == end.(marks := end.marks[m := DONE])
    ensures GoesOn(p, p.Size(), s, t) && Leaves(p, p.Size(), s, t)
  {
    assert [] + UsesAmong(p.Items(m), true, |p.Items(m)|) == UsesAmong(p.Items(m), true, |p.Items(m)|);
    forall x: nat | x < p.Size()
      ensures MayBecome(p.Items(x), s.marks[x], s.done[x], t.marks[x], t.done[x])
    {
      if x != m {
        assert MayBecome(p.Items(x), start.marks[x], start.done[x], end.marks[x], end.done[x]);
      }
    }
  }

  /** The public, or the private, uses among the first `k` items of `m` have been passed. */
  ghost predicate UsesPassed(p: Package, m: nat, isPub: bool, k: nat, s: State, t: State)
    requires s.Fits(p) && t.Fits(p) && m < p.Size() && k <= |p.Items(m)|
  {
    && GoesOn(p, m, s, t) && Leaves(p, m, s, t)
    && t.done[m] == s.done[m] + UsesAmong(p.Items(m), isPub, k)
    && (t.marks[m] == DONE || t.marks[m] == s.marks[m])
  }

  lemma NonePassed(p: Package, m: nat, isPub: bool, s: State)
    requires s.Fits(p) && m < p.Size()
    ensures UsesPassed(p, m, isPub, 0, s, s)
  {
  }

  lemma OneMorePassed(p: Package, m: nat, isPub: bool, k: nat, s: State, t: State, u: State)
    requires s.Fits(p) && t.Fits(p) && u.Fits(p) && m < p.Size() && k < |p.Items(m)|
    requires UsesPassed(p, m, isPub, k, s, t) && GoesOn(p, m, t, u) && Leaves(p, m, t, u)
    requires u.done[m] == t.done[m] + if p.Items(m)[k].UseItem? && p.Items(m)[k].isPub == isPub then [k] else []
    requires u.marks[m] == DONE || u.marks[m] == t.marks[m]
    ensures UsesPassed(p, m, isPub, k + 1, s, u) && CountFresh(u.marks) <= CountFresh(s.marks)
  {
    GoesOnFurther(p, m, s, t, u);
    LeavesFurther(p, m, s, t, u);
    FreshShrinks(s.marks, u.marks);
  }

  /** Only the imports of `m` change, and only by more that are from the use. */
  ghost predicate OnlyAdds(m: nat, use: A.Item, s: State, t: State)
    requires use.UseItem? && |use.path| > 0
  {
    && s.marks == t.marks && s.done == t.done && s.errors <= t.errors && s.ranked == t.ranked
    && m < |s.imports| == |t.imports| && t.imports == s.imports[m := t.imports[m]]
    && AddsNamed(s.imports[m], t.imports[m], UseName(use), use.isPub)
  }

  ghost predicate AddsNamed(before: seq<Import>, after: seq<Import>, name: string, isPub: bool) {
    before <= after && forall k | |before| <= k < |after| :: after[k].name == name && after[k].isPub == isPub
  }

  lemma OnlyAddsFurther(m: nat, use: A.Item, s: State, t: State, u: State)
    requires use.UseItem? && |use.path| > 0
    requires OnlyAdds(m, use, s, t) && OnlyAdds(m, use, t, u)
    ensures OnlyAdds(m, use, s, u)
  {
  }

  lemma OnlyAddsGoesOn(p: Package, m: nat, use: A.Item, s: State, t: State)
    requires use.UseItem? && |use.path| > 0
    requires s.Fits(p) && t.Fits(p) && m < p.Size() && OnlyAdds(m, use, s, t)
    ensures GoesOn(p, p.Size(), s, t) && Leaves(p, m, s, t)
    ensures use.isPub && AllPub(s.imports[m]) ==> AllPub(t.imports[m])
  {
    assert forall x: nat | x < p.Size() && x != m :: t.imports[x] == s.imports[x];
  }

  /** The first public import with the name, from an index on. */
  function FindExport(imports: seq<Import>, name: string, ns: Namespace, from: nat): (r: Option<Import>)
    requires from <= |imports|
    ensures r.Some? ==> r.value in imports && r.value.isPub && r.value.name == name && r.value.ns == ns
    decreases |imports| - from
  {
    if from == |imports| then None
    else if imports[from].isPub && imports[from].ns == ns && imports[from].name == name then Some(imports[from])
    else FindExport(imports, name, ns, from + 1)
  }

  lemma {:induction false} FindsOne(imports: seq<Import>, name: string, ns: Namespace, from: nat, k: nat)
    requires from <= k < |imports| && imports[k].isPub && imports[k].ns == ns && imports[k].name == name
    ensures FindExport(imports, name, ns, from).Some?
    decreases |imports| - from
  {
    if from < k {
      FindsOne(imports, name, ns, from + 1, k);
    }
  }

  /** What was found first is still found first when more have come. */
  lemma {:induction false} FindsTheSame(before: seq<Import>, after: seq<Import>, name: string, ns: Namespace, from: nat)
    requires before <= after && from <= |before| && FindExport(before, name, ns, from).Some?
    ensures FindExport(after, name, ns, from) == FindExport(before, name, ns, from)
    decreases |before| - from
  {
    assert from < |before| && after[from] == before[from];
    if !(before[from].isPub && before[from].ns == ns && before[from].name == name) {
      FindsTheSame(before, after, name, ns, from + 1);
    }
  }

  /** A use that adds to the exports it was looked up in takes what is there then, too: what it
      has added has the name it binds. */
  lemma ExportStaysTaken(before: seq<Import>, after: seq<Import>, locals: Locals, use: A.Item, ns: Namespace, errors: nat)
    requires use.UseItem? && |use.path| > 0 && AddsNamed(before, after, UseName(use), use.isPub)
    requires Takes(use, ns, locals, before, after, errors)
    ensures Takes(use, ns, locals, after, after, errors)
  {
    if FindExport(before, Member(use), ns, 0).Some? {
      FindsTheSame(before, after, Member(use), ns, 0);
    } else if FindExport(after, Member(use), ns, 0).Some? {
      var e := FindExport(after, Member(use), ns, 0).value;
      var k :| 0 <= k < |after| && after[k] == e;
      if k < |before| {
        FindsOne(before, Member(use), ns, 0, k);
      }
      if Member(use) == UseName(use) {
        assert e == Import(UseName(use), ns, e.target, e.member, use.isPub);
      }
    }
  }

  /** What has been looked up in `s` is taken in `t`; then what is looked up at the end is taken
      at the end. */
  lemma ExportTaken(m: nat, use: A.Item, target: nat, ns: Namespace, locals: Locals, s: State, t: State, u: State)
    requires m < |u.imports| && target < |u.imports| && use.UseItem? && |use.path| > 0
    requires OnlyAdds(m, use, s, t) && OnlyAdds(m, use, t, u)
    requires Takes(use, ns, locals, s.imports[target], t.imports[m], t.errors)
    ensures Takes(use, ns, locals, u.imports[target], u.imports[m], u.errors)
  {
    OnlyAddsFurther(m, use, s, t, u);
    TakesStays(use, ns, locals, s.imports[target], t.imports[m], t.errors, u.imports[m], u.errors);
    if target == m {
      ExportStaysTaken(s.imports[m], u.imports[m], locals, use, ns, u.errors);
    }
  }

  /** The three namespaces, one after the other. */
  lemma ExportsTaken(m: nat, use: A.Item, target: nat, locals: Locals, zero: State, one: State, two: State, t: State)
    requires m < |t.imports| && target < |t.imports| && use.UseItem? && |use.path| > 0
    requires OnlyAdds(m, use, zero, one) && OnlyAdds(m, use, one, two) && OnlyAdds(m, use, two, t)
    requires Takes(use, ModuleSpace, locals, zero.imports[target], one.imports[m], one.errors)
    requires Takes(use, TypeSpace, locals, one.imports[target], two.imports[m], two.errors)
    requires Takes(use, ValueSpace, locals, two.imports[target], t.imports[m], t.errors)
    ensures forall ns :: Takes(use, ns, locals, t.imports[target], t.imports[m], t.errors)
  {
    OnlyAddsFurther(m, use, one, two, t);
    ExportTaken(m, use, target, ModuleSpace, locals, zero, one, t);
    ExportTaken(m, use, target, TypeSpace, locals, one, two, t);
    ExportTaken(m, use, target, ValueSpace, locals, two, t, t);
    forall ns ensures Takes(use, ns, locals, t.imports[target], t.imports[m], t.errors) {
      match ns case ModuleSpace => case TypeSpace => case ValueSpace =>
    }
  }

  /** What serves a use whose member is looked for among exports. */
  lemma ExportsServe(p: Package, m: nat, use: A.Item, target: nat, s: State, t: State)
    requires p.Valid() && s.Fits(p) && t.Fits(p) && m < p.Size() && use.UseItem? && Names(p, m, use.path) == Some(target)
    requires LacksLocal(p, target, Member(use)) && s.errors <= t.errors && t == s.(errors := t.errors)
    requires forall ns :: Takes(use, ns, LocalsOf(p, m), s.imports[target], s.imports[m], s.errors)
    requires t.errors == 0 ==> HasNamed(t.imports[m], UseName(use))
    ensures Served(p, m, use, t.imports[m], t.errors)
    ensures forall ns :: Takes(use, ns, LocalsOf(p, m), t.imports[target], t.imports[m], t.errors)
    ensures GoesOn(p, p.Size(), s, t) && Leaves(p, m, s, t)
  {
    forall ns ensures Takes(use, ns, LocalsOf(p, m), t.imports[target], t.imports[m], t.errors) {
      TakesStays(use, ns, LocalsOf(p, m), s.imports[target], s.imports[m], s.errors, t.imports[m], t.errors);
    }
  }

  /** What a justified public import stands for is a justified import elsewhere. */
  lemma ReexportIsJustified(p: Package, m: nat, use: A.Item, target: nat, e: Import, i: Import,
                            imports: seq<Import>, locals: Locals)
    requires p.Valid() && m < p.Size() && use in p.Items(m) && use.UseItem? && Names(p, m, use.path) == Some(target)
    requires LacksLocal(p, target, Member(use))
    requires IsSound(p, target, imports, locals) && e in imports && e.isPub && e.name == Member(use)
    requires i == Import(UseName(use), e.ns, e.target, e.member, use.isPub)
    ensures IsJustified(p, m, i)
  {
    var k :| 0 <= k < |imports| && imports[k] == e;
    assert IsJustified(p, target, imports[k]);
    var chain :| IsChain(p, target, e, chain);
    assert IsChain(p, m, i, Via(use, chain));
  }

  class ImportResolver {
    const p: Package
    /** Numbers that may go down along the uses that are chased. */
    ghost const rank: seq<nat>
    var locals: seq<Locals>
    var imports: seq<seq<Import>>
    var marks: seq<Mark>
    var errors: nat
    /** For each module the uses seen to so far, in order. */
    ghost var done: seq<seq<nat>>

    ghost predicate Valid()
      reads `locals, `imports, `marks, `done, `errors
    {
      && p.Valid() && |locals| == |imports| == |marks| == |done| == p.Size()
      && (forall m: nat | m < p.Size() :: locals[m] == LocalsOf(p, m))
      && (forall m: nat | m < p.Size() :: IsSound(p, m, imports[m], locals[m]))
      && (forall m: nat | m < p.Size() && marks[m] == FRESH :: done[m] == [] && imports[m] == [])
      && AllServed(p, State(imports, marks, done, errors, IsRanked(p, rank)))
    }

    constructor (p: Package, ghost rank: seq<nat>)
      requires p.Valid()
      ensures Valid() && this.p == p && this.rank == rank
      ensures errors == 0 && imports == seq(p.Size(), m => []) && marks == seq(p.Size(), m => FRESH) && done == seq(p.Size(), m => [])
    {
      this.p := p;
      this.rank := rank;
      locals := [];
      imports := seq(p.Size(), m => []);
      marks := seq(p.Size(), m => FRESH);
      done := seq(p.Size(), m => []);
      errors := 0;
      new;
      CollectLocals();
    }

    method CollectLocals()
      requires p.Valid() && locals == []
      modifies `locals
      ensures |locals| == p.Size() && forall m: nat | m < p.Size() :: locals[m] == LocalsOf(p, m)
    {
      for m := 0 to p.Size()
        invariant |locals| == m && forall i: nat | i < m :: locals[i] == LocalsOf(p, i)
      {
        var items, children := p.Items(m), p.table.children[m];
        var l := Locals([], [], []);
        for k := 0 to |items|
          invariant |locals| == m && forall i: nat | i < m :: locals[i] == LocalsOf(p, i)
          invariant l == Locals(NamesOf(items, true, k), NamesOf(items, false, k), [])
        {
          if IsType(items[k]) {
            l := l.(types := l.types + [items[k].name], values := l.values + [items[k].name]);
          } else if IsValue(items[k]) {
            l := l.(values := l.values + [items[k].name]);
          }
        }
        for k := 0 to |children|
          invariant |locals| == m && forall i: nat | i < m :: locals[i] == LocalsOf(p, i)
          invariant l == Locals(NamesOf(items, true, |items|), NamesOf(items, false, |items|), ChildNames(p.table, children, k))
        {
          l := l.(modules := l.modules + [LastPart(p.table.modules[children[k]].path)]);
        }
        locals := locals + [l];
      }
    }

    ghost function Now(): State
      requires p.Valid()
      reads this
    {
      State(imports, marks, done, errors, IsRanked(p, rank))
    }

    /** The module whose uses are being resolved.  Without a cycle it is under way, and so are
        only modules above it. */
    ghost predicate InHand(m: nat)
      requires p.Valid() && |marks| == p.Size()
      reads `marks
    {
      IsInHand(p, rank, marks, m)
    }

    method HasImport(m: nat, name: string, ns: Namespace) returns (found: bool)
      requires m < |imports|
      ensures found <==> exists i | 0 <= i < |imports[m]| :: imports[m][i].name == name && imports[m][i].ns == ns
    {
      for k := 0 to |imports[m]|
        invariant forall j | 0 <= j < k :: imports[m][j].name != name || imports[m][j].ns != ns
      {
        if imports[m][k].name == name && imports[m][k].ns == ns {
          return true;
        }
      }
      return false;
    }

    /** Records an import, unless the name is taken already. */
    method AddImport(m: nat, i: Import, ghost use: A.Item)
      requires Valid() && InHand(m) && IsJustified(p, m, i)
      requires use.UseItem? && |use.path| > 0 && i.name == UseName(use) && i.isPub == use.isPub
      requires i.isPub ==> AllPub(imports[m])
      modifies `imports, `errors
      ensures Valid() && |imports| == |old(imports)|
      ensures if old(IsBound(imports[m], locals[m], i.name, i.ns)) then imports == old(imports) && errors == old(errors) + 1
              else imports == old(imports)[m := old(imports)[m] + [i]] && errors == old(errors)
      ensures Settles(imports[m], locals[m], i.name, i.ns, i.isPub) && OnlyAdds(m, use, old(Now()), Now())
      ensures errors == 0 ==> i in imports[m]
    {
      ghost var before := Now();
      var taken := HasImport(m, i.name, i.ns);
      if locals[m].Has(i.name, i.ns) || taken {
        errors := errors + 1;
      } else {
        SoundWithOneMore(p, m, imports[m], locals[m], i);
        assert (imports[m] + [i])[|imports[m]|] == i;
        imports := imports[m := imports[m] + [i]];
      }
      AllServedStays(p, before, Now());
    }

    /** The module that a use names a member of; what cannot be resolved is reported. */
    method FindTarget(m: nat, path: seq<string>) returns (r: Option<nat>)
      requires Valid() && m < p.Size()
      modifies `errors
      ensures Valid() && r == Names(p, m, path)
      ensures errors == old(errors) + if r.Some? then 0 else 1
    {
      ghost var before := Now();
      if |path| < 2 {
        errors := errors + 1;
        AllServedStays(p, before, Now());
        return None;
      }
      r := Head(p, m, path[0]);
      var i := 1;
      while r.Some? && i + 1 < |path|
        invariant 1 <= i <= |path| && (r.Some? ==> r.value < p.Size())
        invariant Names(p, m, path) == if r.Some? then Along(p, r.value, path, i) else None
      {
        r := FindChild(p.table, r.value, path[i]);
        i := i + 1;
      }
      if r.None? {
        errors := errors + 1;
        AllServedStays(p, before, Now());
      }
    }

    /** Imports the member from the locals of the target. */
    method AddLocal(m: nat, use: A.Item, target: nat, ns: Namespace) returns (found: bool)
      requires Valid() && m < p.Size() && use in p.Items(m) && use.UseItem? && Names(p, m, use.path) == Some(target)
      requires InHand(m) && (use.isPub ==> AllPub(imports[m]))
      modifies `imports, `errors
      ensures Valid() && OnlyAdds(m, use, old(Now()), Now()) && found == LocalsOf(p, target).Has(Member(use), ns)
      ensures BringsLocal(p, m, use, target, ns, imports[m], errors)
    {
      found := locals[target].Has(Member(use), ns);
      if found {
        var i := Import(UseName(use), ns, target, Member(use), use.isPub);
        assert IsChain(p, m, i, Last(use));
        AddImport(m, i, use);
      }
    }

    /** In every namespace it is in. */
    method AddLocals(m: nat, use: A.Item, target: nat) returns (found: bool)
      requires Valid() && m < p.Size() && use in p.Items(m) && use.UseItem? && Names(p, m, use.path) == Some(target)
      requires InHand(m) && (use.isPub ==> AllPub(imports[m]))
      modifies `imports, `errors
      ensures Valid() && OnlyAdds(m, use, old(Now()), Now())
      ensures found == exists ns :: LocalsOf(p, target).Has(Member(use), ns)
      ensures found ==> Served(p, m, use, imports[m], errors)
      ensures use.isPub ==> AllPub(imports[m])
    {
      ghost var zero := Now();
      var inModules := AddLocal(m, use, target, ModuleSpace);
      ghost var one := Now();
      var inTypes := AddLocal(m, use, target, TypeSpace);
      ghost var two := Now();
      var inValues := AddLocal(m, use, target, ValueSpace);
      OnlyAddsFurther(m, use, zero, one, two);
      OnlyAddsFurther(m, use, zero, two, Now());
      LocalsServe(p, m, use, target, one, two, Now());
      InSomeSpace(LocalsOf(p, target), Member(use));
      found := inModules || inTypes || inValues;
    }

    /** Imports what a public import of the target stands for. */
    method AddReexport(m: nat, use: A.Item, target: nat, ns: Namespace) returns (found: bool)
      requires Valid() && m < p.Size() && use in p.Items(m) && use.UseItem? && Names(p, m, use.path) == Some(target)
      requires InHand(m) && (use.isPub ==> AllPub(imports[m])) && LacksLocal(p, target, Member(use))
      modifies `imports, `errors
      ensures Valid() && OnlyAdds(m, use, old(Now()), Now())
      ensures found == FindExport(old(imports[target]), Member(use), ns, 0).Some?
      ensures Takes(use, ns, locals[m], old(imports[target]), imports[m], errors)
      ensures found && errors == 0 ==> HasNamed(imports[m], UseName(use))
    {
      var found' := LookupReexport(target, Member(use), ns);
      found := found'.Some?;
      if found {
        var i := Import(UseName(use), ns, found'.value.target, found'.value.member, use.isPub);
        ReexportIsJustified(p, m, use, target, found'.value, i, imports[target], locals[target]);
        AddImport(m, i, use);
      }
    }

    method LookupReexport(m: nat, name: string, ns: Namespace) returns (r: Option<Import>)
      requires m < |imports|
      ensures r == FindExport(imports[m], name, ns, 0)
    {
      for k := 0 to |imports[m]|
        invariant FindExport(imports[m], name, ns, 0) == FindExport(imports[m], name, ns, k)
      {
        var i := imports[m][k];
        if i.isPub && i.ns == ns && i.name == name {
          return Some(i);
        }
      }
      return None;
    }

    method AddReexports(m: nat, use: A.Item, target: nat) returns (found: bool)
      requires Valid() && m < p.Size() && use in p.Items(m) && use.UseItem? && Names(p, m, use.path) == Some(target)
      requires InHand(m) && (use.isPub ==> AllPub(imports[m])) && LacksLocal(p, target, Member(use))
      modifies `imports, `errors
      ensures Valid() && OnlyAdds(m, use, old(Now()), Now())
      ensures TakesExports(m, use, target)
      ensures found && errors == 0 ==> HasNamed(imports[m], UseName(use))
    {
      ghost var zero := Now();
      var inModules := AddReexport(m, use, target, ModuleSpace);
      ghost var one := Now();
      var inTypes := AddReexport(m, use, target, TypeSpace);
      ghost var two := Now();
      var inValues := AddReexport(m, use, target, ValueSpace);
      OnlyAddsFurther(m, use, one, two, Now());
      OnlyAddsFurther(m, use, zero, one, Now());
      ExportsTaken(m, use, target, locals[m], zero, one, two, Now());
      found := inModules || inTypes || inValues;
    }

    /** What the target exports under the member's name is bound. */
    ghost predicate TakesExports(m: nat, use: A.Item, target: nat)
      requires p.Valid() && m < |imports| && m < |locals| && target < |imports| && use.UseItem? && |use.path| > 0
      reads `imports, `locals, `errors
    {
      forall ns :: Takes(use, ns, locals[m], imports[target], imports[m], errors)
    }

    /** Resolves one use of a module. */
    method ResolveUse(m: nat, k: nat)
      requires Valid() && InHand(m) && k < |p.Items(m)| && p.Items(m)[k].UseItem?
      requires p.Items(m)[k].isPub ==> AllPub(imports[m])
      modifies this
      ensures Valid() && GoesOn(p, m, old(Now()), Now()) && Leaves(p, m, old(Now()), Now())
      ensures done[m] == old(done[m]) + [k] && (marks[m] == DONE || marks[m] == old(marks[m]))
      ensures Serves(m, p.Items(m)[k]) && (p.Items(m)[k].isPub ==> AllPub(imports[m]))
      decreases CountFresh(marks), 6
    {
      ghost var before := Now();
      ResolvePath(m, p.Items(m)[k], k);
      ghost var after := Now();
      done := done[m := done[m] + [k]];
      OneMoreServed(p, after, m, k, Now());
      OneMoreDone(p, m, k, before, after, Now());
    }

    method ResolvePath(m: nat, use: A.Item, ghost k: nat)
      requires Valid() && InHand(m) && k < |p.Items(m)| && use == p.Items(m)[k] && use.UseItem?
      requires use.isPub ==> AllPub(imports[m])
      modifies this
      ensures Valid() && GoesOn(p, p.Size(), old(Now()), Now()) && Leaves(p, m, old(Now()), Now())
      ensures Serves(m, use) && (IsRanked(p, rank) ==> LookedUp(p, Now(), m, use))
      ensures use.isPub ==> AllPub(imports[m])
      decreases CountFresh(marks), 5
    {
      ghost var before := Now();
      var target := FindTarget(m, use.path);
      if target.Some? {
        ghost var start := Now();
        assert IsRanked(p, rank) ==> GoesDown(p, rank, m, p.Items(m)[k]);
        ResolveMember(m, use, target.value);
        GoesOnFurther(p, p.Size(), before, start, Now());
        LeavesFurther(p, m, before, start, Now());
      }
    }

    /** Locals of the named module come first; only for a member that it lacks are its
        exports resolved and looked up. */
    method ResolveMember(m: nat, use: A.Item, target: nat)
      requires Valid() && m < p.Size() && use in p.Items(m) && use.UseItem? && Names(p, m, use.path) == Some(target)
      requires InHand(m) && (use.isPub ==> AllPub(imports[m])) && (IsRanked(p, rank) ==> GoesDown(p, rank, m, use))
      modifies this
      ensures Valid() && GoesOn(p, p.Size(), old(Now()), Now()) && Leaves(p, m, old(Now()), Now())
      ensures Serves(m, use) && (IsRanked(p, rank) ==> LookedUp(p, Now(), m, use))
      ensures use.isPub ==> AllPub(imports[m])
      decreases CountFresh(marks), 4
    {
      ghost var before := Now();
      var resolved := AddLocals(m, use, target);
      OnlyAddsGoesOn(p, m, use, before, Now());
      if !resolved {
        ghost var first := Now();
        ResolveExported(m, use, target);
        GoesOnFurther(p, p.Size(), before, first, Now());
        LeavesFurther(p, m, before, first, Now());
      }
    }

    method ResolveExported(m: nat, use: A.Item, target: nat)
      requires Valid() && m < p.Size() && use in p.Items(m) && use.UseItem? && Names(p, m, use.path) == Some(target)
      requires InHand(m) && (use.isPub ==> AllPub(imports[m])) && (IsRanked(p, rank) ==> GoesDown(p, rank, m, use))
      requires LacksLocal(p, target, Member(use))
      modifies this
      ensures Valid() && GoesOn(p, p.Size(), old(Now()), Now()) && Leaves(p, m, old(Now()), Now())
      ensures Serves(m, use) && (IsRanked(p, rank) ==> LookedUp(p, Now(), m, use))
      ensures use.isPub ==> AllPub(imports[m])
      decreases CountFresh(marks), 3
    {
      ghost var before := Now();
      Chase(m, target);
      ghost var first := Now();
      TakeExports(m, use, target);
      GoesOnFurther(p, p.Size(), before, first, Now());
      LeavesFurther(p, m, before, first, Now());
    }

    /** Resolves the exports of another module. */
    method Chase(m: nat, target: nat)
      requires Valid() && InHand(m) && target < p.Size() && (IsRanked(p, rank) ==> rank[target] < rank[m])
      modifies this
      ensures Valid() && GoesOn(p, p.Size(), old(Now()), Now()) && Leaves(p, m, old(Now()), Now())
      ensures InHand(m) && imports[m] == old(imports[m]) && (target != m ==> marks[target] == DONE)
      decreases CountFresh(marks), 2
    {
      if target != m {
        ghost var before := Now();
        ResolveExports(target);
        StaysInHand(p, rank, m, p.Size(), before, Now());
      }
    }

    /** Takes what there is, and reports if that is nothing. */
    method TakeExports(m: nat, use: A.Item, target: nat)
      requires Valid() && m < p.Size() && use in p.Items(m) && use.UseItem? && Names(p, m, use.path) == Some(target)
      requires InHand(m) && (use.isPub ==> AllPub(imports[m])) && LacksLocal(p, target, Member(use))
      requires IsRanked(p, rank) ==> target != m && marks[target] == DONE
      modifies `imports, `errors
      ensures Valid() && GoesOn(p, p.Size(), old(Now()), Now()) && Leaves(p, m, old(Now()), Now())
      ensures Serves(m, use) && (IsRanked(p, rank) ==> LookedUp(p, Now(), m, use))
      ensures use.isPub ==> AllPub(imports[m])
    {
      ghost var before := Now();
      var resolved := AddReexports(m, use, target);
      OnlyAddsGoesOn(p, m, use, before, Now());
      ghost var last := Now();
      if !resolved {
        ReportUnresolved();
      }
      ExportsServe(p, m, use, target, last, Now());
      GoesOnFurther(p, p.Size(), before, last, Now());
      LeavesFurther(p, m, before, last, Now());
    }

    method ReportUnresolved()
      requires Valid()
      modifies `errors
      ensures Valid() && errors == old(errors) + 1
    {
      ghost var before := Now();
      errors := errors + 1;
      AllServedStays(p, before, Now());
    }

    /** A use of an item that the named module itself has binds the name; one of what it has
        not binds what that module exports by then. */
    ghost predicate Serves(m: nat, use: A.Item)
      requires p.Valid() && m < p.Size() == |imports| == |locals| && use.UseItem?
      reads `imports, `locals, `errors
    {
      && Served(p, m, use, imports[m], errors)
      && var target := Names(p, m, use.path);
         target.Some? && LacksLocal(p, target.value, Member(use)) ==> TakesExports(m, use, target.value)
    }

    /** May a chase come to the module?  Without a cycle it is below all that are under way. */
    ghost predicate MayEnter(m: nat)
      requires p.Valid() && |marks| == p.Size()
      reads `marks
    {
      && m < p.Size()
      && (IsRanked(p, rank) ==> forall x: nat | x < p.Size() && marks[x] == UNDERWAY :: rank[m] < rank[x])
    }

    /** Resolves the imports of a module, public ones first.  A module met again while it is
        under way is marked as done; it still goes on. */
    method ResolveExports(m: nat)
      requires Valid() && MayEnter(m)
      modifies this
      ensures Valid() && GoesOn(p, p.Size(), old(Now()), Now()) && marks[m] == DONE
      ensures Leaves(p, p.Size(), old(Now()), Now())
      decreases CountFresh(marks), 1
    {
      if marks[m] == DONE {
        return;
      }
      if marks[m] == UNDERWAY {
        ghost var before := Now();
        errors := errors + 1;
        marks := marks[m := DONE];
        AllServedStays(p, before, Now());
        return;
      }
      ResolveFresh(m);
    }

    method ResolveFresh(m: nat)
      requires Valid() && MayEnter(m) && marks[m] == FRESH
      modifies this
      ensures Valid() && GoesOn(p, p.Size(), old(Now()), Now()) && marks[m] == DONE
      ensures Leaves(p, p.Size(), old(Now()), Now())
      decreases CountFresh(marks), 0
    {
      ghost var before := Now();
      Begin(m);
      ghost var start := Now();
      ResolveUses(m, true);
      ghost var between := Now();
      FreshShrinks(start.marks, between.marks);
      StaysInHand(p, rank, m, m, start, between);
      ResolveUses(m, false);
      GoesOnFurther(p, m, start, between, Now());
      LeavesFurther(p, m, start, between, Now());
      Finish(m, before, start);
    }

    method Begin(m: nat)
      requires Valid() && MayEnter(m) && marks[m] == FRESH
      modifies `marks
      ensures Valid() && InHand(m) && marks == old(marks)[m := UNDERWAY] && AllPub(imports[m])
      ensures CountFresh(marks) < CountFresh(old(marks))
    {
      ghost var before := Now();
      marks := marks[m := UNDERWAY];
      FreshShrinks(before.marks, marks);
      AllServedStays(p, before, Now());
    }

    method Finish(m: nat, ghost before: State, ghost start: State)
      requires Valid() && m < p.Size() && marks[m] != FRESH && before.Fits(p) && start.Fits(p)
      requires before.marks[m] == FRESH && start == before.(marks := before.marks[m := UNDERWAY]) && before.done[m] == []
      requires GoesOn(p, m, start, Now()) && Leaves(p, m, start, Now())
      requires done[m] == [] + UsesAmong(p.Items(m), true, |p.Items(m)|) + UsesAmong(p.Items(m), false, |p.Items(m)|)
      modifies `marks
      ensures Valid() && marks[m] == DONE && GoesOn(p, p.Size(), before, Now()) && Leaves(p, p.Size(), before, Now())
    {
      ghost var end := Now();
      marks := marks[m := DONE];
      AllServedStays(p, end, Now());
      AllUsesDone(p, m, before, start, end, Now());
    }

    /** The public, or the private, uses of a module that is under way. */
    method ResolveUses(m: nat, isPub: bool)
      requires Valid() && InHand(m) && (isPub ==> AllPub(imports[m]))
      modifies this
      ensures Valid() && UsesPassed(p, m, isPub, |p.Items(m)|, old(Now()), Now())
      decreases CountFresh(marks), 8
    {
      ghost var start := Now();
      NonePassed(p, m, isPub, start);
      for k := 0 to |p.Items(m)|
        invariant IsPassing(m, k, isPub, start)
      {
        ResolveIfUse(m, k, isPub, start);
      }
    }

    /** On the way through the items of a module. */
    ghost predicate IsPassing(m: nat, k: nat, isPub: bool, start: State)
      reads this
    {
      && Valid() && InHand(m) && (isPub ==> AllPub(imports[m])) && k <= |p.Items(m)|
      && start.Fits(p) && UsesPassed(p, m, isPub, k, start, Now()) && CountFresh(marks) <= CountFresh(start.marks)
    }

    /** One item, if it is a use of the kind. */
    method ResolveIfUse(m: nat, k: nat, isPub: bool, ghost start: State)
      requires IsPassing(m, k, isPub, start) && k < |p.Items(m)|
      modifies this
      ensures IsPassing(m, k + 1, isPub, start)
      decreases CountFresh(marks), 7
    {
      ghost var before := Now();
      if p.Items(m)[k].UseItem? && p.Items(m)[k].isPub == isPub {
        ResolveUse(m, k);
        StaysInHand(p, rank, m, m, before, Now());
      }
      OneMorePassed(p, m, isPub, k, start, before, Now());
    }

    /** Resolves the imports of every module: each use is seen to exactly once, in order, and
        at the end each is served: with no errors, each has brought an import.  Without a cycle
        among the uses that are chased, every name that a chain justifies is bound, and with no
        errors the imports are exactly those that chains justify. */
    method ResolveAll()
      requires Valid() && forall x: nat | x < p.Size() :: marks[x] == FRESH
      modifies this
      ensures Valid()
      ensures forall x: nat | x < p.Size() :: marks[x] == DONE && done[x] == Order(p.Items(x))
      ensures forall x: nat, k: nat | x < p.Size() && k < |p.Items(x)| && p.Items(x)[k].UseItem? ::
        Served(p, x, p.Items(x)[k], imports[x], errors)
      ensures IsRanked(p, rank) ==> forall x: nat, i | x < p.Size() && IsJustified(p, x, i) ::
        IsBound(imports[x], locals[x], i.name, i.ns)
      ensures IsRanked(p, rank) && errors == 0 ==> forall x: nat, i | x < p.Size() ::
        i in imports[x] <==> IsJustified(p, x, i)
    {
      for m := 0 to p.Size()
        invariant Valid()
        invariant forall x: nat | x < p.Size() :: marks[x] == FRESH || (marks[x] == DONE && done[x] == Order(p.Items(x)))
        invariant forall x: nat | x < m :: marks[x] == DONE
      {
        ghost var before := Now();
        ResolveExports(m);
        forall x: nat | x < p.Size()
          ensures marks[x] == FRESH || (marks[x] == DONE && done[x] == Order(p.Items(x)))
        {
          assert MayBecome(p.Items(x), before.marks[x], before.done[x], marks[x], done[x]);
        }
      }
      AllAreServed();
    }

    /** Once all uses are done. */
    lemma AllAreServed()
      requires Valid() && forall x: nat | x < p.Size() :: done[x] == Order(p.Items(x))
      ensures forall x: nat, k: nat | x < p.Size() && k < |p.Items(x)| && p.Items(x)[k].UseItem? ::
        Served(p, x, p.Items(x)[k], imports[x], errors)
      ensures IsRanked(p, rank) ==> forall x: nat, i | x < p.Size() && IsJustified(p, x, i) ::
        IsBound(imports[x], locals[x], i.name, i.ns) && (errors == 0 ==> i in imports[x])
      ensures forall x: nat, i | x < p.Size() && i in imports[x] :: IsJustified(p, x, i)
    {
      forall x: nat, k: nat | x < p.Size() && k < |p.Items(x)| && p.Items(x)[k].UseItem?
        ensures Served(p, x, p.Items(x)[k], imports[x], errors)
      {
        UseIsDone(p, Now(), x, k);
      }
      forall x: nat, i | x < p.Size() && IsJustified(p, x, i) && IsRanked(p, rank)
        ensures IsBound(imports[x], locals[x], i.name, i.ns) && (errors == 0 ==> i in imports[x])
      {
        var chain :| IsChain(p, x, i, chain);
        ChainIsFollowed(p, Now(), x, i, chain);
      }
      forall x: nat, i | x < p.Size() && i in imports[x] ensures IsJustified(p, x, i) {
        var k :| 0 <= k < |imports[x]| && imports[x][k] == i;
        assert IsJustified(p, x, imports[x][k]);
      }
    }
  }

  /** When all uses are done and no chase came back to where it began, what a chain leads to has
      arrived: link by link, from the local item at its end. */
  lemma {:induction false} ChainIsFollowed(p: Package, s: State, m: nat, i: Import, chain: Chain)
    requires p.Valid() && s.Fits(p) && AllServed(p, s) && s.ranked && m < p.Size() && IsChain(p, m, i, chain)
    requires forall x: nat | x < p.Size() :: s.done[x] == Order(p.Items(x)) && Unambiguous(s.imports[x], LocalsOf(p, x))
    ensures Settles(s.imports[m], LocalsOf(p, m), i.name, i.ns, i.isPub)
    ensures s.errors == 0 ==> i in s.imports[m]
    decreases chain
  {
    var k :| 0 <= k < |p.Items(m)| && p.Items(m)[k] == chain.use;
    UseIsDone(p, s, m, k);
    var target := Names(p, m, chain.use.path).value;
    match chain
    case Last(use) =>
      assert BringsLocal(p, m, use, target, i.ns, s.imports[m], s.errors);
    case Via(use, rest) =>
      var e := Import(Member(use), i.ns, i.target, i.member, true);
      ChainIsFollowed(p, s, target, e, rest);
      ExportIsFound(s.imports[target], LocalsOf(p, target), e, s.errors);
      assert Takes(use, i.ns, LocalsOf(p, m), s.imports[target], s.imports[m], s.errors);
  }

  lemma ExportIsFound(imports: seq<Import>, locals: Locals, e: Import, errors: nat)
    requires Unambiguous(imports, locals) && Settles(imports, locals, e.name, e.ns, true) && e.isPub
    requires !locals.Has(e.name, e.ns) && (errors == 0 ==> e in imports)
    ensures var found := FindExport(imports, e.name, e.ns, 0);
      found.Some? && (errors == 0 ==> found == Some(e))
  {
    var k :| 0 <= k < |imports| && imports[k].isPub && imports[k].name == e.name && imports[k].ns == e.ns;
    FindsOne(imports, e.name, e.ns, 0, k);
    var found := FindExport(imports, e.name, e.ns, 0).value;
    var f :| 0 <= f < |imports| && imports[f] == found;
    if errors == 0 {
      var g :| 0 <= g < |imports| && imports[g] == e;
    }
  }

  lemma UseIsDone(p: Package, s: State, m: nat, k: nat)
    requires p.Valid() && s.Fits(p) && AllServed(p, s) && m < p.Size() && s.done[m] == Order(p.Items(m))
    requires k < |p.Items(m)| && p.Items(m)[k].UseItem?
    ensures ServedAt(p, s, m, k)
  {
    OrderIsComplete(p.Items(m));
    var i: nat :| i < |s.done[m]| && s.done[m][i] == k;
    assert ServedAt(p, s, m, s.done[m][i]);
  }
}
