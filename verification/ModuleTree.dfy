/** Building the module tree of a package from its files, with a worklist. */
module ModuleTree {
  import opened Options
  import A = Ast

  /** A canonical path by its segments. */
  type Path = seq<string>

  datatype File = File(path: Path, dir: Path, items: seq<A.Item>)

  /** A module: its name path, the file it comes from unless it is inline, its items, and
      the directory its file modules are looked up in. */
  datatype Node = Node(path: string, file: Option<nat>, items: seq<A.Item>, dir: Path)

  datatype Problem = DuplicateModule(name: string) | MissingFile(name: string) | UnreachableFile(file: nat)

  // ----- Looking up files -----

  predicate Matches(files: seq<File>, k: nat, path: Path) {
    k < |files| && files[k].path == path
  }

  /** The first file with the path. */
  function FindFile(files: seq<File>, path: Path): (r: Option<nat>)
    ensures r.Some? ==> Matches(files, r.value, path)
    ensures r.None? ==> forall k: nat :: !Matches(files, k, path)
  {
    FindFileFrom(files, path, 0)
  }

  function FindFileFrom(files: seq<File>, path: Path, from: nat): (r: Option<nat>)
    requires from <= |files|
    ensures r.Some? ==> Matches(files, r.value, path)
    ensures r.None? ==> forall k: nat | from <= k :: !Matches(files, k, path)
    decreases |files| - from
  {
    if from == |files| then None
    else if files[from].path == path then Some(from)
    else FindFileFrom(files, path, from + 1)
  }

  /** The file of a module declared without a body: next to its parent's, or in a directory
      of its own. */
  function FileOf(files: seq<File>, dir: Path, name: string): (r: Option<nat>)
    ensures r.Some? ==> r.value < |files| && |dir| < |files[r.value].path|
  {
    var first := FindFile(files, dir + [name + ".al"]);
    if first.Some? then first else FindFile(files, dir + [name, "mod.al"])
  }

  // ----- What a module declares -----

  /** The children a module has so far, the names it has declared, and what was wrong. */
  datatype Progress = Progress(children: seq<Node>, declared: seq<string>, problems: seq<Problem>)

  function ChildPath(parent: string, name: string): string {
    if parent == "" then name else parent + "::" + name
  }

  /** The child for one declaration, if it has one. */
  function ChildOf(files: seq<File>, node: Node, item: A.Item): Option<Node>
    requires item.ModItem?
  {
    var path := ChildPath(node.path, item.name);
    if item.isInline then Some(Node(path, None, item.items, node.dir))
    else
      match FileOf(files, node.dir, item.name)
      case None => None
      case Some(f) => Some(Node(path, Some(f), files[f].items, node.dir + [item.name]))
  }

  function Declare(files: seq<File>, node: Node, item: A.Item, p: Progress): Progress {
    if !item.ModItem? then p
    else if item.name in p.declared then p.(problems := p.problems + [DuplicateModule(item.name)])
    else
      var p := p.(declared := p.declared + [item.name]);
      match ChildOf(files, node, item)
      case None => p.(problems := p.problems + [MissingFile(item.name)])
      case Some(child) => p.(children := p.children + [child])
  }

  /** After the first `k` items. */
  function DeclareFirst(files: seq<File>, node: Node, k: nat): Progress
    requires k <= |node.items|
  {
    if k == 0 then Progress([], [], [])
    else Declare(files, node, node.items[k - 1], DeclareFirst(files, node, k - 1))
  }

  function Children(files: seq<File>, node: Node): seq<Node> {
    DeclareFirst(files, node, |node.items|).children
  }

  // ----- Why the tree is finite -----

  function Longest(files: seq<File>): (n: nat)
    ensures forall f <- files :: |f.path| <= n
  {
    if files == [] then 0
    else
      var n := Longest(files[..|files| - 1]);
      if |files[|files| - 1].path| > n then |files[|files| - 1].path| else n
  }

  /** How much longer a directory can get before no file lies in it. */
  function Depth(files: seq<File>, dir: Path): nat {
    if |dir| <= Longest(files) then Longest(files) - |dir| else 0
  }

  /** The number of modules in the tree under a node: a file edge lengthens the directory,
      an inline edge goes to a part of the items. */
  function Size(files: seq<File>, node: Node): (n: nat)
    ensures n > 0
    decreases Depth(files, node.dir), node.items, |node.items| + 1
  {
    1 + SizeFirst(files, node, |node.items|)
  }

  /** Under the children that the first `k` items declare. */
  function SizeFirst(files: seq<File>, node: Node, k: nat): nat
    requires k <= |node.items|
    decreases Depth(files, node.dir), node.items, k
  {
    if k == 0 then 0
    else
      var item := node.items[k - 1];
      var p := DeclareFirst(files, node, k - 1);
      var before := SizeFirst(files, node, k - 1);
      if !item.ModItem? || item.name in p.declared || ChildOf(files, node, item).None? then before
      else before + Size(files, ChildOf(files, node, item).value)
  }

  function Total(files: seq<File>, nodes: seq<Node>): nat {
    if nodes == [] then 0 else Total(files, nodes[..|nodes| - 1]) + Size(files, nodes[|nodes| - 1])
  }

  lemma TotalOfOne(files: seq<File>, nodes: seq<Node>, node: Node)
    ensures Total(files, nodes + [node]) == Total(files, nodes) + Size(files, node)
  {
    assert (nodes + [node])[..|nodes|] == nodes;
  }

  // ----- The table of modules -----

  datatype Table = Table(modules: seq<Node>, parents: seq<Option<nat>>, children: seq<seq<nat>>)

  /** The `k`-th child of `m` is a later module, knows its parent, and is what the `k`-th
      child should be. */
  ghost predicate IsChild(t: Table, m: nat, k: nat, child: Node)
    requires m < |t.children| && k < |t.children[m]|
  {
    var c := t.children[m][k];
    && m < c < |t.modules| == |t.parents|
    && t.parents[c] == Some(m) && t.modules[c] == child
    && forall j | 0 <= j < k :: t.children[m][j] < c
  }

  /** The children of `m` are those given. */
  ghost predicate HasChildren(t: Table, m: nat, children: seq<Node>) {
    && m < |t.children| && |t.children[m]| == |children|
    && forall k: nat | k < |children| :: IsChild(t, m, k, children[k])
  }

  /** Every module but the root is a child of an earlier one. */
  ghost predicate HasParent(t: Table, m: nat) {
    && m < |t.parents| && t.parents[m].Some? && t.parents[m].value < m
    && t.parents[m].value < |t.children| && m in t.children[t.parents[m].value]
  }

  ghost predicate IsTable(t: Table) {
    && |t.modules| == |t.parents| == |t.children| > 0
    && t.parents[0].None?
    && forall m: nat | 0 < m < |t.modules| :: HasParent(t, m)
  }

  ghost predicate InTable(t: Table, pending: seq<nat>) {
    && (forall k | 0 <= k < |pending| :: pending[k] < |t.modules|)
    && forall i, j | 0 <= i < j < |pending| :: pending[i] != pending[j]
  }

  /** The modules still to be expanded have no children yet; all others have theirs. */
  function Expected(files: seq<File>, t: Table, pending: seq<nat>, m: nat): seq<Node>
    requires m < |t.modules|
  {
    if m in pending then [] else Children(files, t.modules[m])
  }

  ghost predicate IsExpanded(files: seq<File>, t: Table, pending: seq<nat>) {
    && IsTable(t) && InTable(t, pending)
    && forall m: nat | m < |t.modules| :: HasChildren(t, m, Expected(files, t, pending, m))
  }

  /** Adding a module as the last child of `m`. */
  function Attach(t: Table, m: nat, child: Node): Table
    requires m < |t.children|
  {
    var c := |t.modules|;
    Table(t.modules + [child], t.parents + [Some(m)], t.children[m := t.children[m] + [c]] + [[]])
  }

  lemma AttachKeepsTable(t: Table, m: nat, child: Node)
    requires IsTable(t) && m < |t.modules|
    ensures IsTable(Attach(t, m, child))
  {
    var u := Attach(t, m, child);
    forall i: nat | 0 < i < |u.modules| ensures HasParent(u, i) {
      if i < |t.modules| {
        assert HasParent(t, i);
      } else {
        assert u.children[m][|t.children[m]|] == i;
      }
    }
  }

  lemma AttachKeepsChildren(t: Table, m: nat, child: Node, i: nat, children: seq<Node>)
    requires IsTable(t) && m < |t.modules| && HasChildren(t, i, children)
    ensures HasChildren(Attach(t, m, child), i, if i == m then children + [child] else children)
  {
    var u := Attach(t, m, child);
    var all := if i == m then children + [child] else children;
    forall k: nat | k < |all| ensures IsChild(u, i, k, all[k]) {
      if k < |children| {
        assert IsChild(t, i, k, children[k]);
        assert u.children[i][k] == t.children[i][k];
      } else {
        forall j | 0 <= j < k ensures u.children[i][j] < u.children[i][k] {
          assert IsChild(t, i, j, children[j]);
        }
      }
    }
  }

  // ----- Expanding one module -----

  /** While `m` is expanded it has the children so far. */
  ghost predicate IsPartly(files: seq<File>, t: Table, pending: seq<nat>, m: nat, children: seq<Node>) {
    && IsTable(t) && m < |t.modules| && InTable(t, pending) && m !in pending
    && HasChildren(t, m, children)
    && forall i: nat | i < |t.modules| && i != m :: HasChildren(t, i, Expected(files, t, pending, i))
  }

  lemma ExpansionStarts(files: seq<File>, t: Table, pending: seq<nat>, m: nat)
    requires IsExpanded(files, t, pending + [m])
    ensures IsPartly(files, t, pending, m, [])
  {
    var all := pending + [m];
    assert all[|pending|] == m;
    assert forall i | 0 <= i < |pending| :: all[i] == pending[i];
    assert forall i: nat :: i in all <==> i in pending || i == m;
    assert HasChildren(t, m, Expected(files, t, all, m));
    forall i: nat | i < |t.modules| && i != m ensures HasChildren(t, i, Expected(files, t, pending, i)) {
      assert HasChildren(t, i, Expected(files, t, all, i));
    }
  }

  lemma ExpansionEnds(files: seq<File>, t: Table, pending: seq<nat>, m: nat)
    requires m < |t.modules| && IsPartly(files, t, pending, m, Children(files, t.modules[m]))
    ensures IsExpanded(files, t, pending)
  {
  }

  lemma ExpansionGoesOn(files: seq<File>, t: Table, pending: seq<nat>, m: nat, children: seq<Node>, child: Node)
    requires IsPartly(files, t, pending, m, children)
    ensures IsPartly(files, Attach(t, m, child), pending + [|t.modules|], m, children + [child])
  {
    AttachKeepsTable(t, m, child);
    AttachKeepsChildren(t, m, child, m, children);
    var u, c := Attach(t, m, child), |t.modules|;
    assert m !in pending + [c] && InTable(u, pending + [c]);
    forall i: nat | i < |u.modules| && i != m ensures HasChildren(u, i, Expected(files, u, pending + [c], i)) {
      if i < c {
        AttachKeepsChildren(t, m, child, i, Expected(files, t, pending, i));
        assert u.modules[i] == t.modules[i];
      }
    }
  }

  function Nodes(t: Table, pending: seq<nat>): seq<Node>
    requires InTable(t, pending)
  {
    if pending == [] then []
    else
      var front := pending[..|pending| - 1];
      Nodes(t, front) + [t.modules[pending[|pending| - 1]]]
  }

  lemma {:induction false} NodesStay(t: Table, m: nat, child: Node, pending: seq<nat>)
    requires m < |t.children| && InTable(t, pending)
    ensures Nodes(Attach(t, m, child), pending) == Nodes(t, pending)
  {
    if pending != [] {
      var front := pending[..|pending| - 1];
      NodesStay(t, m, child, front);
    }
  }

  /** One more module on the worklist adds its tree to what is to come. */
  lemma TotalGrows(files: seq<File>, t: Table, m: nat, child: Node, pending: seq<nat>)
    requires m < |t.children| && InTable(t, pending)
    requires |t.modules| !in pending
    ensures InTable(Attach(t, m, child), pending + [|t.modules|])
    ensures Total(files, Nodes(Attach(t, m, child), pending + [|t.modules|]))
      == Total(files, Nodes(t, pending)) + Size(files, child)
  {
    var u, all := Attach(t, m, child), pending + [|t.modules|];
    assert all[..|pending|] == pending;
    NodesStay(t, m, child, pending);
    TotalOfOne(files, Nodes(t, pending), child);
  }

  lemma TotalShrinks(files: seq<File>, t: Table, pending: seq<nat>)
    requires pending != [] && InTable(t, pending)
    ensures InTable(t, pending[..|pending| - 1])
    ensures Total(files, Nodes(t, pending))
      == Total(files, Nodes(t, pending[..|pending| - 1])) + Size(files, t.modules[pending[|pending| - 1]])
  {
    var front := pending[..|pending| - 1];
    TotalOfOne(files, Nodes(t, front), t.modules[pending[|pending| - 1]]);
  }

  /** Was the module made from the file? */
  ghost predicate IsOf(t: Table, m: nat, f: nat) {
    m < |t.modules| && t.modules[m].file == Some(f)
  }

  ghost predicate IsUsed(t: Table, f: nat) {
    exists m: nat :: IsOf(t, m, f)
  }
}
