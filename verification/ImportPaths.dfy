/** What uses name, said by the paths of modules and the items in them alone. */
module ImportPaths {
  import opened Options
  import opened ModuleTree
  import opened ModulePaths
  import opened Imports
  import opened SourceNames
  import Spelling
  import A = Ast

  /** The module that has the path, of which there is one at most. */
  ghost predicate IsAt(t: Table, m: nat, path: string) {
    m < |t.modules| && t.modules[m].path == path
  }

  lemma OneAtMost(files: seq<File>, t: Table, m: nat, n: nat, path: string)
    requires IsFinished(files, t) && IsAt(t, m, path) && IsAt(t, n, path)
    ensures m == n
  {
    if m < n {
      PathsDiffer(files, t, m, n);
    } else if n < m {
      PathsDiffer(files, t, n, m);
    }
  }

  lemma ChildrenAreModules(files: seq<File>, t: Table, m: nat)
    requires IsFinished(files, t) && m < |t.modules|
    ensures m < |t.children| && AreModules(t, t.children[m])
  {
    forall j | 0 <= j < |t.children[m]| ensures t.children[m][j] < |t.modules| {
      ChildIsNamed(files, t, m, j);
    }
  }

  /** A module below another is its child. */
  lemma ModuleBelow(files: seq<File>, t: Table, c: nat, q: string, name: string) returns (m: nat, k: nat)
    requires IsFinished(files, t) && IsName(name) && IsAt(t, c, ChildPath(q, name))
    ensures IsAt(t, m, q) && k < |t.children[m]| && t.children[m][k] == c && LastPart(t.modules[c].path) == name
    ensures t.parents[c] == Some(m)
  {
    ChildName(q, name);
    m, k := OneParent(files, t, c);
    ChildIsNamed(files, t, m, k);
    ChildPathIsInjective(q, name, t.modules[m].path, LastPart(t.modules[c].path));
  }

  /** Looking up a child by name finds the module that has the path. */
  lemma ChildByPath(files: seq<File>, t: Table, m: nat, name: string, c: nat)
    requires IsFinished(files, t) && m < |t.modules| && IsName(name)
    ensures m < |t.children| && AreModules(t, t.children[m])
    ensures FindChild(t, m, name) == Some(c) <==> IsAt(t, c, ChildPath(t.modules[m].path, name))
  {
    ChildrenAreModules(files, t, m);
    if IsAt(t, c, ChildPath(t.modules[m].path, name)) {
      var n, k := ModuleBelow(files, t, c, t.modules[m].path, name);
      OneAtMost(files, t, m, n, t.modules[m].path);
      LookupIsUnique(files, t, m, k);
    } else if FindChild(t, m, name) == Some(c) {
      var k :| 0 <= k < |t.children[m]| && t.children[m][k] == c;
      ChildIsNamed(files, t, m, k);
    }
  }

  // ----- Paths of uses -----

  /** A base path with the segments from `i` on behind it, without the last one. */
  function Extend(q: string, path: seq<string>, i: nat): string
    decreases |path| - i
  {
    if i + 1 >= |path| then q else Extend(ChildPath(q, path[i]), path, i + 1)
  }

  ghost predicate AreNames(path: seq<string>) {
    forall k | 0 <= k < |path| :: IsName(path[k])
  }

  /** Where there is a module with the whole path, there is one with its first part. */
  lemma {:induction false} StartExists(files: seq<File>, t: Table, q: string, path: seq<string>, i: nat, c: nat) returns (d: nat)
    requires IsFinished(files, t) && AreNames(path) && i + 1 < |path| && IsAt(t, c, Extend(q, path, i))
    ensures IsAt(t, d, ChildPath(q, path[i]))
    decreases |path| - i
  {
    assert Extend(q, path, i) == Extend(ChildPath(q, path[i]), path, i + 1);
    if i + 2 >= |path| {
      d := c;
    } else {
      var below := StartExists(files, t, ChildPath(q, path[i]), path, i + 1, c);
      var k;
      d, k := ModuleBelow(files, t, below, ChildPath(q, path[i]), path[i + 1]);
    }
  }

  lemma {:induction false} AlongByPath(files: seq<File>, p: Package, m: nat, path: seq<string>, i: nat, c: nat)
    requires p.Valid() && IsFinished(files, p.table) && m < p.Size() && AreNames(path)
    ensures Along(p, m, path, i) == Some(c) <==> IsAt(p.table, c, Extend(p.table.modules[m].path, path, i))
    decreases |path| - i
  {
    var q := p.table.modules[m].path;
    if i + 1 >= |path| {
      if IsAt(p.table, c, q) { OneAtMost(files, p.table, m, c, q); }
    } else {
      var child := FindChild(p.table, m, path[i]);
      assert Extend(q, path, i) == Extend(ChildPath(q, path[i]), path, i + 1);
      if child.Some? {
        ChildByPath(files, p.table, m, path[i], child.value);
        assert p.table.modules[child.value].path == ChildPath(q, path[i]);
        AlongByPath(files, p, child.value, path, i + 1, c);
      } else if IsAt(p.table, c, Extend(q, path, i)) {
        var d := StartExists(files, p.table, q, path, i, c);
        ChildByPath(files, p.table, m, path[i], d);
      }
    }
  }

  /** Where a path begins: at the root for `package` and the package's own name, at the module
      itself for `self`, at the path that this module's path extends for `super`, and below the
      module for anything else. */
  ghost predicate BeginsAt(p: Package, m: nat, head: string, q: string)
    requires m < p.Size()
  {
    var here := p.table.modules[m].path;
    if head == "package" || head == p.name then q == ""
    else if head == "self" then q == here
    else if head == "super" then here != "" && here == ChildPath(q, LastPart(here))
    else q == ChildPath(here, head)
  }

  lemma RootIsFirst(files: seq<File>, p: Package, c: nat)
    requires p.Valid() && IsFinished(files, p.table)
    ensures RootOf(p.table, 0) == 0
    ensures IsAt(p.table, c, "") <==> c == 0
  {
    if IsAt(p.table, c, "") { OneAtMost(files, p.table, c, 0, ""); }
  }

  lemma SuperByPath(files: seq<File>, p: Package, m: nat, q: string)
    requires p.Valid() && IsFinished(files, p.table) && m < p.Size()
    ensures var here, parent := p.table.modules[m].path, p.table.parents[m];
      here != "" && here == ChildPath(q, LastPart(here)) <==> parent.Some? && q == p.table.modules[parent.value].path
  {
    var here := p.table.modules[m].path;
    RootIsFirst(files, p, m);
    if here == "" {
      assert p.table.parents[0].None?;
    } else {
      var n, k := OneParent(files, p.table, m);
      ChildIsNamed(files, p.table, n, k);
      if here == ChildPath(q, LastPart(here)) {
        ChildPathIsInjective(q, LastPart(here), p.table.modules[n].path, LastPart(here));
      }
    }
  }

  /** The module that a use names a member of is the one with the path that the use spells out;
      if there is none, or there are not two segments, it names nothing. */
  lemma TargetByPath(files: seq<File>, p: Package, m: nat, path: seq<string>, c: nat)
    requires p.Valid() && IsFinished(files, p.table) && m < p.Size() && AreNames(path)
    ensures Names(p, m, path) == Some(c)
      <==> |path| >= 2 && exists q :: BeginsAt(p, m, path[0], q) && IsAt(p.table, c, Extend(q, path, 1))
  {
    if |path| >= 2 {
      var head := Head(p, m, path[0]);
      HeadByPath(files, p, m, path, head);
      if head.Some? {
        var q := p.table.modules[head.value].path;
        AlongByPath(files, p, head.value, path, 1, c);
        forall q' | BeginsAt(p, m, path[0], q') ensures q' == q {
          BeginsOnce(files, p, m, path[0], q, q');
        }
      } else if exists q :: BeginsAt(p, m, path[0], q) && IsAt(p.table, c, Extend(q, path, 1)) {
        var q :| BeginsAt(p, m, path[0], q) && IsAt(p.table, c, Extend(q, path, 1));
        NothingBegins(files, p, m, path, q, c);
      }
    }
  }

  lemma HeadByPath(files: seq<File>, p: Package, m: nat, path: seq<string>, head: Option<nat>)
    requires p.Valid() && IsFinished(files, p.table) && m < p.Size() && AreNames(path) && |path| >= 2
    requires head == Head(p, m, path[0])
    ensures head.Some? ==> BeginsAt(p, m, path[0], p.table.modules[head.value].path)
  {
    if head.Some? {
      RootIsFirst(files, p, 0);
      SuperByPath(files, p, m, p.table.modules[head.value].path);
      ChildByPath(files, p.table, m, path[0], head.value);
    }
  }

  lemma BeginsOnce(files: seq<File>, p: Package, m: nat, head: string, q: string, q': string)
    requires p.Valid() && IsFinished(files, p.table) && m < p.Size()
    requires BeginsAt(p, m, head, q) && BeginsAt(p, m, head, q')
    ensures q == q'
  {
    SuperByPath(files, p, m, q);
    SuperByPath(files, p, m, q');
  }

  lemma NothingBegins(files: seq<File>, p: Package, m: nat, path: seq<string>, q: string, c: nat)
    requires p.Valid() && IsFinished(files, p.table) && m < p.Size() && AreNames(path) && |path| >= 2
    requires BeginsAt(p, m, path[0], q) && IsAt(p.table, c, Extend(q, path, 1))
    ensures Head(p, m, path[0]).Some?
  {
    RootIsFirst(files, p, 0);
    SuperByPath(files, p, m, q);
    if Head(p, m, path[0]).None? {
      var d := c;
      if |path| > 2 {
        var below := StartExists(files, p.table, q, path, 1, c);
        var k;
        d, k := ModuleBelow(files, p.table, below, q, path[1]);
      }
      ChildByPath(files, p.table, m, path[0], d);
    }
  }

  // ----- Local names -----

  lemma {:induction false} NamedItems(items: seq<A.Item>, types: bool, n: nat, name: string)
    requires n <= |items|
    ensures name in NamesOf(items, types, n)
      <==> exists k: nat :: k < n && (if types then IsType(items[k]) else IsValue(items[k])) && items[k].name == name
    decreases n
  {
    if n > 0 {
      NamedItems(items, types, n - 1, name);
    }
  }

  lemma {:induction false} NamedChildren(t: Table, children: seq<nat>, n: nat, name: string)
    requires n <= |children| && AreModules(t, children)
    ensures name in ChildNames(t, children, n) <==> exists k: nat :: k < n && LastPart(t.modules[children[k]].path) == name
    decreases n
  {
    if n > 0 {
      NamedChildren(t, children, n - 1, name);
    }
  }

  /** Does the module have an item of the name in the namespace?  A struct or an enum is a type
      and a value, a function, a static or a constant is a value, a module stands below. */
  ghost predicate HasItem(p: Package, m: nat, name: string, ns: Namespace)
    requires m < p.Size()
  {
    match ns
    case TypeSpace => exists i <- p.Items(m) :: (i.StructItem? || i.EnumItem?) && i.name == name
    case ValueSpace =>
      exists i <- p.Items(m) ::
        (i.StructItem? || i.EnumItem? || i.FnItem? || i.StaticItem? || i.ConstItem?) && i.name == name
    case ModuleSpace => exists c: nat :: IsAt(p.table, c, ChildPath(p.table.modules[m].path, name))
  }

  lemma LocalsByItems(files: seq<File>, p: Package, m: nat, name: string, ns: Namespace)
    requires p.Valid() && IsFinished(files, p.table) && m < p.Size() && IsName(name)
    ensures LocalsOf(p, m).Has(name, ns) <==> HasItem(p, m, name, ns)
  {
    var items := p.Items(m);
    match ns
    case TypeSpace => NamedItems(items, true, |items|, name);
    case ValueSpace => NamedItems(items, false, |items|, name);
    case ModuleSpace =>
      var children := p.table.children[m];
      NamedChildren(p.table, children, |children|, name);
      if exists c: nat :: IsAt(p.table, c, ChildPath(p.table.modules[m].path, name)) {
        var c: nat :| IsAt(p.table, c, ChildPath(p.table.modules[m].path, name));
        ChildByPath(files, p.table, m, name, c);
        var n, k := ModuleBelow(files, p.table, c, p.table.modules[m].path, name);
        OneAtMost(files, p.table, m, n, p.table.modules[m].path);
      }
      if exists k: nat :: k < |children| && LastPart(p.table.modules[children[k]].path) == name {
        var k: nat :| k < |children| && LastPart(p.table.modules[children[k]].path) == name;
        ChildIsNamed(files, p.table, m, k);
        assert IsAt(p.table, children[k], ChildPath(p.table.modules[m].path, name));
      }
  }

  // ----- What an import is -----

  /** The use names the member `member` of the module `c`. */
  ghost predicate PointsAt(p: Package, m: nat, path: seq<string>, c: nat, member: string)
    requires m < p.Size()
  {
    && |path| >= 2 && member == path[|path| - 1]
    && exists q :: BeginsAt(p, m, path[0], q) && IsAt(p.table, c, Extend(q, path, 1))
  }

  /** A use brings in an item, or what another use brings in where the named module has no item
      of that name in any namespace. */
  ghost predicate Brings(p: Package, m: nat, i: Import, chain: Chain)
    decreases chain
  {
    && m < p.Size() && chain.use in p.Items(m) && chain.use.UseItem? && i.isPub == chain.use.isPub
    && (match chain.use.alias
        case Some(alias) => i.name == alias
        case None => chain.use.path != [] && i.name == chain.use.path[|chain.use.path| - 1])
    && match chain
       case Last(_) => PointsAt(p, m, chain.use.path, i.target, i.member) && HasItem(p, i.target, i.member, i.ns)
       case Via(_, rest) =>
         exists c: nat, member ::
           && PointsAt(p, m, chain.use.path, c, member)
           && (forall ns :: !HasItem(p, c, member, ns))
           && Brings(p, c, Import(member, i.ns, i.target, i.member, true), rest)
  }

  lemma NamesAreNames(files: seq<File>, p: Package, m: nat, use: A.Item)
    requires p.Valid() && IsFinished(files, p.table) && m < p.Size() && use in p.Items(m) && use.UseItem?
    ensures AreNames(use.path)
  {
    ModulesAreSource(files, p.table, m);
    assert SourceUse(use);
    forall k | 0 <= k < |use.path| ensures IsName(use.path[k]) {
      assert Spelling.IsWord(use.path[k]) && !Spelling.IsWordChar(':');
    }
  }

  lemma PointsByPath(files: seq<File>, p: Package, m: nat, use: A.Item, c: nat, member: string)
    requires p.Valid() && IsFinished(files, p.table) && m < p.Size() && use in p.Items(m) && use.UseItem?
    ensures PointsAt(p, m, use.path, c, member) <==> Names(p, m, use.path) == Some(c) && member == Member(use)
  {
    NamesAreNames(files, p, m, use);
    TargetByPath(files, p, m, use.path, c);
  }

  /** Chains of uses, said in these terms. */
  lemma {:induction false} ChainByPaths(files: seq<File>, p: Package, m: nat, i: Import, chain: Chain)
    requires p.Valid() && IsFinished(files, p.table)
    ensures IsChain(p, m, i, chain) <==> Brings(p, m, i, chain)
    decreases chain, 0
  {
    if m < p.Size() && chain.use in p.Items(m) && chain.use.UseItem? {
      var use := chain.use;
      NamesAreNames(files, p, m, use);
      match chain
      case Last(_) =>
        PointsByPath(files, p, m, use, i.target, i.member);
        if i.target < p.Size() && |use.path| > 0 {
          LocalsByItems(files, p, i.target, use.path[|use.path| - 1], i.ns);
        }
      case Via(_, rest) => ViaByPaths(files, p, m, i, use, rest);
    }
  }

  lemma {:induction false} ViaByPaths(files: seq<File>, p: Package, m: nat, i: Import, use: A.Item, rest: Chain)
    requires p.Valid() && IsFinished(files, p.table) && m < p.Size() && use in p.Items(m) && use.UseItem?
    ensures IsChain(p, m, i, Via(use, rest)) <==> Brings(p, m, i, Via(use, rest))
    decreases rest, 1
  {
    var target := Names(p, m, use.path);
    NamesAreNames(files, p, m, use);
    if target.Some? {
      var c, member := target.value, Member(use);
      var e := Import(member, i.ns, i.target, i.member, true);
      ChainByPaths(files, p, c, e, rest);
      PointsByPath(files, p, m, use, c, member);
      forall ns ensures LocalsOf(p, c).Has(member, ns) <==> HasItem(p, c, member, ns) {
        LocalsByItems(files, p, c, member, ns);
      }
      forall c': nat, member' | PointsAt(p, m, use.path, c', member') ensures c' == c && member' == member {
        PointsByPath(files, p, m, use, c', member');
      }
    } else {
      forall c': nat, member' | PointsAt(p, m, use.path, c', member') ensures false {
        PointsByPath(files, p, m, use, c', member');
      }
    }
  }

  /** The imports that chains of uses justify, said in these terms. */
  lemma JustifiedByPaths(files: seq<File>, p: Package, m: nat, i: Import)
    requires p.Valid() && IsFinished(files, p.table)
    ensures IsJustified(p, m, i) <==> exists chain :: Brings(p, m, i, chain)
  {
    if IsJustified(p, m, i) {
      var chain :| IsChain(p, m, i, chain);
      ChainByPaths(files, p, m, i, chain);
    }
    if exists chain :: Brings(p, m, i, chain) {
      var chain :| Brings(p, m, i, chain);
      ChainByPaths(files, p, m, i, chain);
    }
  }
}
