/** What a finished module table is: a tree, in which paths and child names are unique. */
module ModulePaths {
  import opened Options
  import opened ModuleTree
  import opened SourceNames
  import Spelling
  import A = Ast

  // ----- Names inside paths -----

  /** What the lexer makes an identifier of has no colon. */
  predicate IsName(s: string) {
    s != "" && ':' !in s
  }

  /** What comes after the last colon. */
  function LastPart(path: string): string {
    if path == "" || path[|path| - 1] == ':' then "" else LastPart(path[..|path| - 1]) + [path[|path| - 1]]
  }

  lemma {:induction false} LastPartOf(before: string, name: string)
    requires IsName(name) || name == ""
    requires before == "" || before[|before| - 1] == ':'
    ensures LastPart(before + name) == name
  {
    var path := before + name;
    if name != "" {
      var front := name[..|name| - 1];
      assert path[..|path| - 1] == before + front;
      assert path[|path| - 1] == name[|name| - 1] && name[|name| - 1] in name;
      assert forall c <- front :: c in name;
      LastPartOf(before, front);
      assert name == front + [name[|name| - 1]];
    } else {
      assert path == before;
    }
  }

  lemma ChildName(parent: string, name: string)
    requires IsName(name)
    ensures LastPart(ChildPath(parent, name)) == name && ChildPath(parent, name) != ""
  {
    if parent == "" {
      LastPartOf("", name);
      assert "" + name == name;
    } else {
      LastPartOf(parent + "::", name);
    }
  }

  /** A path tells the parent's path and the name. */
  lemma ChildPathIsInjective(p: string, m: string, q: string, n: string)
    requires IsName(m) && IsName(n) && ChildPath(p, m) == ChildPath(q, n)
    ensures p == q && m == n
  {
    ChildName(p, m);
    ChildName(q, n);
    var path := ChildPath(p, m);
    if p != "" && q != "" {
      assert p == path[..|path| - |m| - 2] == q;
    }
  }

  ghost predicate GoodNames(items: seq<A.Item>) {
    forall item <- items :: item.ModItem? ==> IsName(item.name)
  }

  lemma SourceModulesAreGood(items: seq<A.Item>)
    requires SourceModules(items)
    ensures GoodNames(items)
  {
    forall item <- items | item.ModItem? ensures IsName(item.name) {
      assert Spelling.IsWord(item.name) && !Spelling.IsWordChar(':');
    }
  }

  // ----- Siblings -----

  /** The child's path is its parent's with a name that has been declared. */
  ghost predicate IsNamed(node: Node, child: Node, declared: seq<string>) {
    exists name <- declared :: IsName(name) && child.path == ChildPath(node.path, name)
  }

  ghost predicate AllNamed(node: Node, children: seq<Node>, declared: seq<string>) {
    forall j | 0 <= j < |children| :: IsNamed(node, children[j], declared)
  }

  ghost predicate AllDiffer(children: seq<Node>) {
    forall i, j | 0 <= i < j < |children| :: children[i].path != children[j].path
  }

  lemma {:induction false} SiblingsDiffer(files: seq<File>, node: Node, k: nat)
    requires k <= |node.items| && GoodNames(node.items)
    ensures AllNamed(node, DeclareFirst(files, node, k).children, DeclareFirst(files, node, k).declared)
    ensures AllDiffer(DeclareFirst(files, node, k).children)
  {
    if k > 0 {
      SiblingsDiffer(files, node, k - 1);
      var item := node.items[k - 1];
      assert item in node.items;
      var before := DeclareFirst(files, node, k - 1);
      if item.ModItem? && item.name !in before.declared {
        SiblingIsNew(files, node, item, before);
      }
    }
  }

  lemma SiblingIsNew(files: seq<File>, node: Node, item: A.Item, before: Progress)
    requires item.ModItem? && IsName(item.name) && item.name !in before.declared
    requires AllNamed(node, before.children, before.declared) && AllDiffer(before.children)
    ensures var p := Declare(files, node, item, before);
      AllNamed(node, p.children, p.declared) && AllDiffer(p.children)
  {
    var p := Declare(files, node, item, before);
    forall j | 0 <= j < |before.children|
      ensures IsNamed(node, p.children[j], p.declared) && before.children[j].path != ChildPath(node.path, item.name)
    {
      assert IsNamed(node, before.children[j], before.declared);
      var name :| name in before.declared && IsName(name) && before.children[j].path == ChildPath(node.path, name);
      assert name in p.declared;
      if before.children[j].path == ChildPath(node.path, item.name) {
        ChildPathIsInjective(node.path, name, node.path, item.name);
      }
    }
    if |p.children| > |before.children| {
      assert item.name in p.declared;
      assert p.children[|before.children|].path == ChildPath(node.path, item.name);
    }
  }

  // ----- The finished table -----

  /** Everything has been expanded, from a root with the empty path. */
  ghost predicate IsFinished(files: seq<File>, t: Table) {
    && IsExpanded(files, t, []) && t.modules[0].path == ""
    && (forall f <- files :: SourceModules(f.items)) && SourceModules(t.modules[0].items)
  }

  ghost predicate AllSource(nodes: seq<Node>) {
    forall node <- nodes :: SourceModules(node.items)
  }

  lemma {:induction false} ChildrenAreSource(files: seq<File>, node: Node, k: nat)
    requires (forall f <- files :: SourceModules(f.items)) && SourceModules(node.items) && k <= |node.items|
    ensures AllSource(DeclareFirst(files, node, k).children)
  {
    if k > 0 {
      ChildrenAreSource(files, node, k - 1);
      assert node.items[k - 1] in node.items;
    }
  }

  /** Whatever module is reached, its items come from a file, or from a module that has
      them inside. */
  lemma {:induction false} ModulesAreSource(files: seq<File>, t: Table, m: nat)
    requires IsFinished(files, t) && m < |t.modules|
    ensures SourceModules(t.modules[m].items) && GoodNames(t.modules[m].items)
    decreases m
  {
    if m > 0 {
      assert HasParent(t, m);
      var p := t.parents[m].value;
      ModulesAreSource(files, t, p);
      var children := Children(files, t.modules[p]);
      ChildrenAreSource(files, t.modules[p], |t.modules[p].items|);
      var k: nat :| k < |t.children[p]| && t.children[p][k] == m;
      assert Expected(files, t, [], p) == children && HasChildren(t, p, Expected(files, t, [], p));
      assert IsChild(t, p, k, children[k]);
      assert children[k] in children;
    }
    SourceModulesAreGood(t.modules[m].items);
  }

  /** The children are those of the module, and have its path and a name. */
  lemma ChildIsNamed(files: seq<File>, t: Table, m: nat, k: nat)
    requires IsFinished(files, t) && m < |t.modules| && k < |t.children[m]|
    ensures var c := t.children[m][k];
      && m < c < |t.modules| && t.parents[c] == Some(m)
      && t.modules[c].path == ChildPath(t.modules[m].path, LastPart(t.modules[c].path))
      && IsName(LastPart(t.modules[c].path))
    ensures forall j: nat | j < |t.children[m]| && j != k ::
      t.children[m][j] < |t.modules| && t.modules[t.children[m][j]].path != t.modules[t.children[m][k]].path
  {
    var node := t.modules[m];
    var children := Children(files, node);
    assert Expected(files, t, [], m) == children;
    assert HasChildren(t, m, Expected(files, t, [], m));
    ModulesAreSource(files, t, m);
    SiblingsDiffer(files, node, |node.items|);
    assert IsChild(t, m, k, children[k]);
    var declared := DeclareFirst(files, node, |node.items|).declared;
    assert IsNamed(node, children[k], declared);
    var name :| name in declared && IsName(name) && children[k].path == ChildPath(node.path, name);
    ChildName(node.path, name);
    forall j: nat | j < |t.children[m]| && j != k
      ensures t.children[m][j] < |t.modules| && t.modules[t.children[m][j]].path != t.modules[t.children[m][k]].path
    {
      assert IsChild(t, m, j, children[j]);
      assert children[j].path != children[k].path;
    }
  }

  /** Every module but the root is in exactly one place among the children. */
  lemma OneParent(files: seq<File>, t: Table, c: nat) returns (m: nat, k: nat)
    requires IsFinished(files, t) && 0 < c < |t.modules|
    ensures m < c && k < |t.children[m]| && t.children[m][k] == c
    ensures forall m': nat, k': nat | m' < |t.modules| && k' < |t.children[m']| :: t.children[m'][k'] == c ==> m' == m && k' == k
  {
    assert HasParent(t, c);
    m := t.parents[c].value;
    k :| 0 <= k < |t.children[m]| && t.children[m][k] == c;
    forall m': nat, k': nat | m' < |t.modules| && k' < |t.children[m']| && t.children[m'][k'] == c
      ensures m' == m && k' == k
    {
      ChildIsNamed(files, t, m', k');
      ChildIsNamed(files, t, m, k);
    }
  }

  /** No two modules have the same path. */
  lemma {:induction false} PathsDiffer(files: seq<File>, t: Table, i: nat, j: nat)
    requires IsFinished(files, t) && i < j < |t.modules|
    ensures t.modules[i].path != t.modules[j].path
    decreases j
  {
    var p, k := OneParent(files, t, j);
    ChildIsNamed(files, t, p, k);
    var name := LastPart(t.modules[j].path);
    ChildName(t.modules[p].path, name);
    if i > 0 && t.modules[i].path == t.modules[j].path {
      var q, l := OneParent(files, t, i);
      ChildIsNamed(files, t, q, l);
      ChildPathIsInjective(t.modules[p].path, name, t.modules[q].path, LastPart(t.modules[i].path));
      if p < q {
        PathsDiffer(files, t, p, q);
      } else if q < p {
        PathsDiffer(files, t, q, p);
      }
    }
  }

  // ----- Child lookup -----

  ghost predicate AreModules(t: Table, children: seq<nat>) {
    forall k | 0 <= k < |children| :: children[k] < |t.modules|
  }

  /** The first child with the name. */
  function FindChild(t: Table, m: nat, name: string): (r: Option<nat>)
    requires m < |t.children| && AreModules(t, t.children[m])
    ensures r.Some? ==> r.value in t.children[m] && r.value < |t.modules|
  {
    FindChildFrom(t, t.children[m], name, 0)
  }

  function FindChildFrom(t: Table, children: seq<nat>, name: string, from: nat): (r: Option<nat>)
    requires from <= |children| && AreModules(t, children)
    ensures r.Some? ==> r.value in children && r.value < |t.modules| && LastPart(t.modules[r.value].path) == name
    ensures r.None? ==> forall k | from <= k < |children| :: LastPart(t.modules[children[k]].path) != name
    decreases |children| - from
  {
    if from == |children| then None
    else if LastPart(t.modules[children[from]].path) == name then Some(children[from])
    else FindChildFrom(t, children, name, from + 1)
  }

  /** A child that has the name is the one that is found. */
  lemma LookupIsUnique(files: seq<File>, t: Table, m: nat, k: nat)
    requires IsFinished(files, t) && m < |t.modules| && k < |t.children[m]|
    ensures AreModules(t, t.children[m]) && t.children[m][k] < |t.modules|
    ensures FindChild(t, m, LastPart(t.modules[t.children[m][k]].path)) == Some(t.children[m][k])
  {
    forall j | 0 <= j < |t.children[m]| ensures t.children[m][j] < |t.modules| {
      ChildIsNamed(files, t, m, j);
    }
    ChildIsNamed(files, t, m, k);
    var name := LastPart(t.modules[t.children[m][k]].path);
    var found := FindChild(t, m, name);
    if found.Some? {
      var j :| 0 <= j < |t.children[m]| && t.children[m][j] == found.value;
      ChildIsNamed(files, t, m, j);
    }
  }
}
