/** The tree builder: expands one module of its worklist after the other. */
module TreeBuilder {
  import opened Options
  import opened ModuleTree
  import SourceNames
  import ModulePaths
  import A = Ast

  lemma Appends(a: seq<Problem>, b: seq<Problem>, problem: Problem)
    ensures a + (b + [problem]) == a + b + [problem]
  {
  }

  /** What one more item adds. */
  lemma NextItem(files: seq<File>, node: Node, k: nat)
    requires k < |node.items|
    ensures DeclareFirst(files, node, k + 1) == Declare(files, node, node.items[k], DeclareFirst(files, node, k))
    ensures var item := node.items[k];
      SizeFirst(files, node, k + 1) == SizeFirst(files, node, k)
        + if !item.ModItem? || item.name in DeclareFirst(files, node, k).declared || ChildOf(files, node, item).None? then 0
          else Size(files, ChildOf(files, node, item).value)
  {
  }

  class TreeBuilder {
    const files: seq<File>
    var table: Table
    /** For each file, the last module that was made from it. */
    var fileModule: seq<Option<nat>>
    var worklist: seq<nat>
    var problems: seq<Problem>

    ghost predicate Valid()
      reads this
    {
      IsExpanded(files, table, worklist) && FilesKnown()
    }

    /** A file is known to be used exactly when a module was made from it. */
    ghost predicate FilesKnown()
      reads this
    {
      && |fileModule| == |files|
      && forall f: nat | f < |files| :: fileModule[f].Some? == IsUsed(table, f)
    }

    constructor (files: seq<File>, root: nat)
      requires root < |files|
      ensures Valid() && this.files == files && problems == [] && worklist == [0]
      ensures table == Table([Node("", Some(root), files[root].items, files[root].dir)], [None], [[]])
    {
      this.files := files;
      table := Table([Node("", Some(root), files[root].items, files[root].dir)], [None], [[]]);
      fileModule := seq(|files|, f requires 0 <= f < |files| => if f == root then Some(0) else None);
      worklist := [0];
      problems := [];
      new;
      assert IsOf(table, 0, root);
    }

    /** As the constructor makes the root: with the items of a file. */
    ghost predicate IsRoot(node: Node) {
      node.path == "" && exists f <- files :: node.items == f.items
    }

    /** Expands until nothing is left to expand, which happens for every set of files. */
    method BuildTree()
      requires Valid()
      modifies this
      ensures Valid() && worklist == []
      ensures table.modules[0] == old(table.modules[0])
      ensures (forall f <- files :: SourceNames.SourceModules(f.items)) && old(IsRoot(table.modules[0])) ==>
        ModulePaths.IsFinished(files, table)
    {
      while worklist != []
        invariant Valid() && table.modules[0] == old(table.modules[0])
        decreases Total(files, Nodes(table, worklist))
      {
        BuildChildren();
      }
    }

    /** Takes the last module off the worklist, gives it its children, and puts them on. */
    method BuildChildren()
      requires Valid() && worklist != []
      modifies this
      ensures Valid() && table.modules[0] == old(table.modules[0])
      ensures Total(files, Nodes(table, worklist)) < Total(files, Nodes(old(table), old(worklist)))
    {
      var m := worklist[|worklist| - 1];
      var node := table.modules[m];
      TotalShrinks(files, table, worklist);
      assert worklist == worklist[..|worklist| - 1] + [m];
      worklist := worklist[..|worklist| - 1];
      ExpansionStarts(files, table, worklist, m);
      ghost var size := Total(files, Nodes(table, worklist));
      var declared: seq<string> := [];
      for k := 0 to |node.items|
        invariant Midway(m, node, k, declared, size, old(problems))
        invariant table.modules[0] == old(table.modules[0])
      {
        declared := DeclareItem(m, node, k, declared, size, old(problems));
      }
      ExpansionEnds(files, table, worklist, m);
    }

    /** After the first `k` items of `m`. */
    ghost predicate Midway(m: nat, node: Node, k: nat, declared: seq<string>, size: nat, before: seq<Problem>)
      reads this
    {
      && k <= |node.items| && FilesKnown()
      && var p := DeclareFirst(files, node, k);
      && declared == p.declared && problems == before + p.problems
      && IsPartly(files, table, worklist, m, p.children) && table.modules[m] == node
      && Total(files, Nodes(table, worklist)) == size + SizeFirst(files, node, k)
    }

    method DeclareItem(m: nat, node: Node, k: nat, declared: seq<string>, ghost size: nat, ghost before: seq<Problem>)
      returns (declared': seq<string>)
      requires Midway(m, node, k, declared, size, before) && k < |node.items|
      modifies this
      ensures Midway(m, node, k + 1, declared', size, before)
      ensures table.modules[0] == old(table.modules[0])
    {
      declared' := declared;
      var item := node.items[k];
      ghost var p := DeclareFirst(files, node, k);
      NextItem(files, node, k);
      if item.ModItem? {
        if item.name in declared {
          Appends(before, p.problems, DuplicateModule(item.name));
          problems := problems + [DuplicateModule(item.name)];
        } else {
          declared' := declared + [item.name];
          Appends(before, p.problems, MissingFile(item.name));
          BuildChild(m, item, p.children);
        }
      }
    }

    /** The child for one declaration: the body of an inline module, or a file. */
    method BuildChild(m: nat, item: A.Item, ghost children: seq<Node>)
      requires FilesKnown() && IsPartly(files, table, worklist, m, children) && item.ModItem?
      modifies this
      ensures FilesKnown()
      ensures var child := ChildOf(files, old(table.modules[m]), item);
        if child.None? then
          table == old(table) && worklist == old(worklist) && problems == old(problems) + [MissingFile(item.name)]
        else
          && table == Attach(old(table), m, child.value) && worklist == old(worklist) + [|old(table.modules)|]
          && problems == old(problems)
          && IsPartly(files, table, worklist, m, children + [child.value])
          && Total(files, Nodes(table, worklist))
             == Total(files, Nodes(old(table), old(worklist))) + Size(files, child.value)
    {
      var node := table.modules[m];
      var path := ChildPath(node.path, item.name);
      if item.isInline {
        AddModule(Node(path, None, item.items, node.dir), m, children);
        return;
      }
      var file := FindFileByPath(node.dir + [item.name + ".al"]);
      if file.None? {
        file := FindFileByPath(node.dir + [item.name, "mod.al"]);
      }
      if file.None? {
        problems := problems + [MissingFile(item.name)];
        return;
      }
      AddModule(Node(path, file, files[file.value].items, node.dir + [item.name]), m, children);
    }

    method AddModule(child: Node, m: nat, ghost children: seq<Node>)
      requires FilesKnown() && IsPartly(files, table, worklist, m, children)
      requires child.file.Some? ==> child.file.value < |files|
      modifies this
      ensures FilesKnown() && table == Attach(old(table), m, child) && problems == old(problems)
      ensures worklist == old(worklist) + [|old(table.modules)|]
      ensures IsPartly(files, table, worklist, m, children + [child])
      ensures Total(files, Nodes(table, worklist))
        == Total(files, Nodes(old(table), old(worklist))) + Size(files, child)
    {
      var c := |table.modules|;
      ExpansionGoesOn(files, table, worklist, m, children, child);
      TotalGrows(files, table, m, child, worklist);
      var known := if child.file.Some? then fileModule[child.file.value := Some(c)] else fileModule;
      FilesStayKnown(table, Attach(table, m, child), m, child, fileModule, known);
      table, worklist, fileModule := Attach(table, m, child), worklist + [c], known;
    }

    lemma FilesStayKnown(s: Table, t: Table, m: nat, child: Node, before: seq<Option<nat>>, after: seq<Option<nat>>)
      requires m < |s.children| && t == Attach(s, m, child) && |before| == |files|
      requires forall f: nat | f < |files| :: before[f].Some? == IsUsed(s, f)
      requires child.file.Some? ==> child.file.value < |files|
      requires after == if child.file.Some? then before[child.file.value := Some(|s.modules|)] else before
      ensures forall f: nat | f < |files| :: after[f].Some? == IsUsed(t, f)
    {
      forall f: nat | f < |files| ensures after[f].Some? == IsUsed(t, f) {
        if IsUsed(s, f) {
          var i: nat :| IsOf(s, i, f);
          assert IsOf(t, i, f);
        }
        if IsUsed(t, f) {
          var i: nat :| IsOf(t, i, f);
          assert i < |s.modules| ==> IsOf(s, i, f);
        }
        if child.file == Some(f) {
          assert IsOf(t, |s.modules|, f);
        }
      }
    }

    method FindFileByPath(path: Path) returns (r: Option<nat>)
      ensures r == FindFile(files, path)
    {
      var i := 0;
      while i < |files|
        invariant i <= |files| && FindFile(files, path) == FindFileFrom(files, path, i)
      {
        if files[i].path == path {
          return Some(i);
        }
        i := i + 1;
      }
      return None;
    }

    /** Warns of the files that no module was made from. */
    method ReportUnreachable()
      requires Valid()
      modifies `problems
      ensures problems == old(problems) + Unreachable(|files|)
    {
      var f := 0;
      while f < |files|
        invariant f <= |files| && problems == old(problems) + Unreachable(f)
      {
        if fileModule[f].None? {
          problems := problems + [UnreachableFile(f)];
        }
        f := f + 1;
      }
    }

    ghost function Unreachable(n: nat): seq<Problem>
      reads `table
    {
      if n == 0 then []
      else Unreachable(n - 1) + if IsUsed(table, n - 1) then [] else [UnreachableFile(n - 1)]
    }
  }
}
