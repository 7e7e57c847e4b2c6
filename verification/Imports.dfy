/** What an import may be: a name that a chain of public uses leads to a local item. */
module Imports {
  import opened Options
  import opened ModuleTree
  import opened ModulePaths
  import A = Ast

  datatype Namespace = TypeSpace | ValueSpace | ModuleSpace

  /** `name` in this module stands for `member` of the target module. */
  datatype Import = Import(name: string, ns: Namespace, target: nat, member: string, isPub: bool)

  // ----- Packages -----

  datatype Package = Package(name: string, table: Table) {
    /** The table is one as the tree builder leaves it. */
    ghost predicate Valid() {
      && |table.modules| == |table.parents| == |table.children| > 0
      && (forall m: nat | m < |table.modules| :: AreModules(table, table.children[m]))
      && forall m: nat | m < |table.modules| && table.parents[m].Some? :: table.parents[m].value < |table.modules|
    }

    function Size(): nat { |table.modules| }

    function Items(m: nat): seq<A.Item>
      requires m < Size()
    {
      table.modules[m].items
    }
  }

  lemma FinishedTableIsPackage(files: seq<File>, t: Table, name: string)
    requires IsFinished(files, t)
    ensures Package(name, t).Valid()
  {
    forall m: nat | m < |t.modules| ensures AreModules(t, t.children[m]) {
      forall k | 0 <= k < |t.children[m]| ensures t.children[m][k] < |t.modules| {
        ChildIsNamed(files, t, m, k);
      }
    }
    forall m: nat | m < |t.modules| && t.parents[m].Some? ensures t.parents[m].value < |t.modules| {
      if m > 0 {
        assert HasParent(t, m);
      }
    }
  }

  // ----- Local names -----

  predicate IsType(item: A.Item) {
    item.StructItem? || item.EnumItem?
  }

  /** Structs and enums are values too: their constructors. */
  predicate IsValue(item: A.Item) {
    IsType(item) || item.FnItem? || item.StaticItem? || item.ConstItem?
  }

  /** The names of the first `n` items that are types, or values. */
  function NamesOf(items: seq<A.Item>, types: bool, n: nat): seq<string>
    requires n <= |items|
  {
    if n == 0 then []
    else
      var item := items[n - 1];
      NamesOf(items, types, n - 1) + if (if types then IsType(item) else IsValue(item)) then [item.name] else []
  }

  /** The names of the first `n` children. */
  function ChildNames(t: Table, children: seq<nat>, n: nat): seq<string>
    requires n <= |children| && AreModules(t, children)
  {
    if n == 0 then [] else ChildNames(t, children, n - 1) + [LastPart(t.modules[children[n - 1]].path)]
  }

  datatype Locals = Locals(types: seq<string>, values: seq<string>, modules: seq<string>) {
    predicate Has(name: string, ns: Namespace) {
      match ns
      case TypeSpace => name in types
      case ValueSpace => name in values
      case ModuleSpace => name in modules
    }
  }

  function LocalsOf(p: Package, m: nat): Locals
    requires p.Valid() && m < p.Size()
  {
    var items, children := p.Items(m), p.table.children[m];
    Locals(NamesOf(items, true, |items|), NamesOf(items, false, |items|), ChildNames(p.table, children, |children|))
  }

  // ----- Paths of uses -----

  /** The index of the root: the first module with an empty path. */
  function RootOf(t: Table, from: nat): (r: nat)
    requires from <= |t.modules| && |t.modules| > 0
    ensures r < |t.modules|
    decreases |t.modules| - from
  {
    if from == |t.modules| then 0 else if t.modules[from].path == "" then from else RootOf(t, from + 1)
  }

  /** Where a path starts that is used in `m`. */
  function Head(p: Package, m: nat, head: string): (r: Option<nat>)
    requires p.Valid() && m < p.Size()
    ensures r.Some? ==> r.value < p.Size()
  {
    if head == "package" || head == p.name then Some(RootOf(p.table, 0))
    else if head == "self" then Some(m)
    else if head == "super" then p.table.parents[m]
    else FindChild(p.table, m, head)
  }

  /** On through the segments between the first and the last, from the `i`-th. */
  function Along(p: Package, m: nat, path: seq<string>, i: nat): (r: Option<nat>)
    requires p.Valid() && m < p.Size()
    ensures r.Some? ==> r.value < p.Size()
    decreases |path| - i
  {
    if i + 1 >= |path| then Some(m)
    else
      var child := FindChild(p.table, m, path[i]);
      if child.None? then None else Along(p, child.value, path, i + 1)
  }

  /** The module that a use names a member of. */
  function Names(p: Package, m: nat, path: seq<string>): (r: Option<nat>)
    requires p.Valid() && m < p.Size()
    ensures r.Some? ==> r.value < p.Size() && |path| >= 2
  {
    if |path| < 2 then None
    else
      var head := Head(p, m, path[0]);
      if head.None? then None else Along(p, head.value, path, 1)
  }

  function Member(use: A.Item): string
    requires use.UseItem? && |use.path| > 0
  {
    use.path[|use.path| - 1]
  }

  function UseName(use: A.Item): string
    requires use.UseItem? && |use.path| > 0
  {
    if use.alias.Some? then use.alias.value else Member(use)
  }

  // ----- Justified imports -----

  /** The uses that lead to an item: each names a member of the module the next stands in,
      the last one a local item. */
  datatype Chain = Last(use: A.Item) | Via(use: A.Item, rest: Chain)

  ghost predicate IsChain(p: Package, m: nat, i: Import, chain: Chain)
    requires p.Valid()
    decreases chain
  {
    && m < p.Size() && chain.use in p.Items(m) && chain.use.UseItem?
    && Names(p, m, chain.use.path).Some?
    && i.name == UseName(chain.use) && i.isPub == chain.use.isPub
    && var target, member := Names(p, m, chain.use.path).value, Member(chain.use);
       match chain
       case Last(_) => i.target == target && i.member == member && LocalsOf(p, target).Has(member, i.ns)
       case Via(_, rest) =>
         && LacksLocal(p, target, member)
         && IsChain(p, target, Import(member, i.ns, i.target, i.member, true), rest)
  }

  /** Exports are looked at only for a name that the module's own items have in no namespace. */
  ghost predicate LacksLocal(p: Package, m: nat, name: string)
    requires p.Valid() && m < p.Size()
  {
    forall ns :: !LocalsOf(p, m).Has(name, ns)
  }

  /** Numbers that go down along every use that is chased into another module's exports, so that
      no chase can come back to where it began. */
  ghost predicate IsRanked(p: Package, rank: seq<nat>)
    requires p.Valid()
  {
    && |rank| == p.Size()
    && forall m: nat, k: nat | m < p.Size() && k < |p.Items(m)| && p.Items(m)[k].UseItem? :: GoesDown(p, rank, m, p.Items(m)[k])
  }

  ghost predicate GoesDown(p: Package, rank: seq<nat>, m: nat, use: A.Item)
    requires p.Valid() && m < p.Size() == |rank| && use.UseItem?
  {
    var target := Names(p, m, use.path);
    target.Some? && LacksLocal(p, target.value, Member(use)) ==> rank[target.value] < rank[m]
  }

  ghost predicate IsJustified(p: Package, m: nat, i: Import)
    requires p.Valid()
  {
    exists chain :: IsChain(p, m, i, chain)
  }

  /** The end of every chain is a local item of the target, which the import names. */
  lemma {:induction false} ChainEnds(p: Package, m: nat, i: Import, chain: Chain)
    requires p.Valid() && IsChain(p, m, i, chain)
    ensures i.target < p.Size() && LocalsOf(p, i.target).Has(i.member, i.ns)
    decreases chain
  {
    if chain.Via? {
      ChainEnds(p, Names(p, m, chain.use.path).value,
                Import(Member(chain.use), i.ns, i.target, i.member, true), chain.rest);
    }
  }

  // ----- The order of uses -----

  /** The indices of the public, or the private, uses among the first `n` items. */
  function UsesAmong(items: seq<A.Item>, isPub: bool, n: nat): seq<nat>
    requires n <= |items|
  {
    if n == 0 then []
    else
      UsesAmong(items, isPub, n - 1)
      + if items[n - 1].UseItem? && items[n - 1].isPub == isPub then [n - 1] else []
  }

  /** Public uses come first. */
  function Order(items: seq<A.Item>): seq<nat> {
    UsesAmong(items, true, |items|) + UsesAmong(items, false, |items|)
  }

  lemma {:induction false} AmongHasUses(items: seq<A.Item>, isPub: bool, n: nat, k: nat)
    requires n <= |items|
    ensures k in UsesAmong(items, isPub, n) <==> k < n && items[k].UseItem? && items[k].isPub == isPub
  {
    if n > 0 {
      AmongHasUses(items, isPub, n - 1, k);
    }
  }

  ghost predicate AreDistinct(ks: seq<nat>) {
    forall i, j | 0 <= i < j < |ks| :: ks[i] != ks[j]
  }

  lemma {:induction false} AmongAreDistinct(items: seq<A.Item>, isPub: bool, n: nat)
    requires n <= |items|
    ensures AreDistinct(UsesAmong(items, isPub, n))
  {
    if n > 0 {
      AmongAreDistinct(items, isPub, n - 1);
      AmongHasUses(items, isPub, n - 1, n - 1);
    }
  }

  ghost predicate Ascend(ks: seq<nat>) {
    forall i, j | 0 <= i < j < |ks| :: ks[i] < ks[j]
  }

  lemma {:induction false} AmongAscend(items: seq<A.Item>, isPub: bool, n: nat)
    requires n <= |items|
    ensures Ascend(UsesAmong(items, isPub, n))
  {
    if n > 0 {
      AmongAscend(items, isPub, n - 1);
      var ks := UsesAmong(items, isPub, n - 1);
      forall i | 0 <= i < |ks| ensures ks[i] < n - 1 {
        assert ks[i] in ks;
        AmongHasUses(items, isPub, n - 1, ks[i]);
      }
    }
  }

  lemma AmongAt(items: seq<A.Item>, isPub: bool, i: nat)
    requires i < |UsesAmong(items, isPub, |items|)|
    ensures var k := UsesAmong(items, isPub, |items|)[i]; k < |items| && items[k].UseItem? && items[k].isPub == isPub
  {
    var ks := UsesAmong(items, isPub, |items|);
    assert ks[i] in ks;
    AmongHasUses(items, isPub, |items|, ks[i]);
  }

  /** A public use comes before those that are not, and otherwise uses come as they are
      written. */
  lemma OrderIsPublicFirst(items: seq<A.Item>, i: nat, j: nat)
    requires i < j < |Order(items)|
    ensures var ks := Order(items);
      ks[i] < |items| && ks[j] < |items| && items[ks[i]].UseItem? && items[ks[j]].UseItem?
      && if items[ks[i]].isPub == items[ks[j]].isPub then ks[i] < ks[j] else items[ks[i]].isPub
  {
    var n := |UsesAmong(items, true, |items|)|;
    AmongAscend(items, true, |items|);
    AmongAscend(items, false, |items|);
    AmongAt(items, i < n, if i < n then i else i - n);
    AmongAt(items, j < n, if j < n then j else j - n);
  }

  /** Every use is in the order, and only once. */
  lemma OrderIsComplete(items: seq<A.Item>)
    ensures var ks := Order(items);
      AreDistinct(ks) && forall k: nat :: k in ks <==> k < |items| && items[k].UseItem?
  {
    AmongAreDistinct(items, true, |items|);
    AmongAreDistinct(items, false, |items|);
    forall k: nat ensures k in Order(items) <==> k < |items| && items[k].UseItem? {
      AmongHasUses(items, true, |items|, k);
      AmongHasUses(items, false, |items|, k);
    }
    var ps, qs := UsesAmong(items, true, |items|), UsesAmong(items, false, |items|);
    forall i, j | 0 <= i < j < |ps + qs| ensures (ps + qs)[i] != (ps + qs)[j] {
      if j < |ps| {
        assert ps[i] != ps[j];
      } else if |ps| <= i {
        assert qs[i - |ps|] != qs[j - |ps|];
      } else {
        AmongHasUses(items, true, |items|, ps[i]);
        AmongHasUses(items, false, |items|, qs[j - |ps|]);
        assert ps[i] in ps && qs[j - |ps|] in qs;
      }
    }
  }
}
