/** Which modules there are below a module, said of its items and of the files alone. */
module TreeMeaning {
  import opened Options
  import opened ModuleTree
  import opened ModulePaths
  import A = Ast

  /** The item declares a module, and no item before it one of the same name. */
  ghost predicate DeclaresFirst(items: seq<A.Item>, k: nat) {
    && k < |items| && items[k].ModItem?
    && forall j: nat | j < k && items[j].ModItem? :: items[j].name != items[k].name
  }

  /** The first of the files with the path. */
  ghost predicate IsFileAt(files: seq<File>, path: Path, f: nat) {
    f < |files| && files[f].path == path && forall g: nat | g < f :: files[g].path != path
  }

  ghost predicate NoFileAt(files: seq<File>, path: Path) {
    forall g: nat | g < |files| :: files[g].path != path
  }

  /** The file of a module declared without a body: `name.al` in the directory, or else
      `name/mod.al`. */
  ghost predicate IsFileOf(files: seq<File>, dir: Path, name: string, f: nat) {
    || IsFileAt(files, dir + [name + ".al"], f)
    || (NoFileAt(files, dir + [name + ".al"]) && IsFileAt(files, dir + [name, "mod.al"], f))
  }

  /** The module that a declaration makes.  One with a body has the items of the body and looks
      for files where its parent does; one without has the items of its file and looks for files
      in the directory of its own name. */
  ghost predicate Makes(files: seq<File>, node: Node, item: A.Item, child: Node)
    requires item.ModItem?
  {
    && child.path == (if node.path == "" then item.name else node.path + "::" + item.name)
    && if item.isInline then child.file == None && child.items == item.items && child.dir == node.dir
       else
         && child.file.Some? && IsFileOf(files, node.dir, item.name, child.file.value)
         && child.file.value < |files| && child.items == files[child.file.value].items
         && child.dir == node.dir + [item.name]
  }

  // ----- That is what is built -----

  lemma {:induction false} FindsFirst(files: seq<File>, path: Path, from: nat, f: nat)
    requires from <= |files| && forall g: nat | g < from :: files[g].path != path
    ensures FindFileFrom(files, path, from) == Some(f) <==> IsFileAt(files, path, f)
    ensures FindFileFrom(files, path, from) == None <==> NoFileAt(files, path)
    decreases |files| - from
  {
    if from < |files| && files[from].path != path {
      FindsFirst(files, path, from + 1, f);
    }
  }

  lemma FileIsOf(files: seq<File>, dir: Path, name: string, f: nat)
    ensures FileOf(files, dir, name) == Some(f) <==> IsFileOf(files, dir, name, f)
  {
    FindsFirst(files, dir + [name + ".al"], 0, f);
    FindsFirst(files, dir + [name, "mod.al"], 0, f);
  }

  lemma ChildIsMade(files: seq<File>, node: Node, item: A.Item, child: Node)
    requires item.ModItem?
    ensures ChildOf(files, node, item) == Some(child) <==> Makes(files, node, item, child)
  {
    if child.file.Some? {
      FileIsOf(files, node.dir, item.name, child.file.value);
    }
    if FileOf(files, node.dir, item.name).Some? {
      FileIsOf(files, node.dir, item.name, FileOf(files, node.dir, item.name).value);
    }
  }

  lemma {:induction false} DeclaredNames(files: seq<File>, node: Node, k: nat, name: string)
    requires k <= |node.items|
    ensures name in DeclareFirst(files, node, k).declared
      <==> exists j: nat :: j < k && node.items[j].ModItem? && node.items[j].name == name
  {
    if k > 0 {
      DeclaredNames(files, node, k - 1, name);
    }
  }

  lemma NewChild(files: seq<File>, node: Node, k: nat, child: Node)
    requires k < |node.items|
    ensures var before := DeclareFirst(files, node, k);
      child in Declare(files, node, node.items[k], before).children <==>
        (child in before.children || (DeclaresFirst(node.items, k) && Makes(files, node, node.items[k], child)))
  {
    var item := node.items[k];
    if item.ModItem? {
      DeclaredNames(files, node, k, item.name);
      ChildIsMade(files, node, item, child);
      assert DeclaresFirst(node.items, k) <==> item.name !in DeclareFirst(files, node, k).declared;
    }
  }

  lemma {:induction false} DeclaredChildren(files: seq<File>, node: Node, k: nat, child: Node)
    requires k <= |node.items|
    ensures child in DeclareFirst(files, node, k).children
      <==> exists j: nat :: j < k && DeclaresFirst(node.items, j) && Makes(files, node, node.items[j], child)
  {
    if k > 0 {
      DeclaredChildren(files, node, k - 1, child);
      NewChild(files, node, k - 1, child);
    }
  }

  /** In a finished table the modules below one are exactly those that its declarations make. */
  lemma ChildrenAreMade(files: seq<File>, t: Table, m: nat, child: Node)
    requires IsFinished(files, t) && m < |t.modules|
    ensures (exists c: nat :: m < c < |t.modules| && t.parents[c] == Some(m) && t.modules[c] == child)
      <==> (exists j: nat :: DeclaresFirst(t.modules[m].items, j)
              && Makes(files, t.modules[m], t.modules[m].items[j], child))
  {
    var node := t.modules[m];
    var children := Children(files, node);
    DeclaredChildren(files, node, |node.items|, child);
    assert Expected(files, t, [], m) == children && HasChildren(t, m, Expected(files, t, [], m));
    if exists c: nat :: m < c < |t.modules| && t.parents[c] == Some(m) && t.modules[c] == child {
      var c: nat :| m < c < |t.modules| && t.parents[c] == Some(m) && t.modules[c] == child;
      assert HasParent(t, c);
      var k: nat :| k < |t.children[m]| && t.children[m][k] == c;
      assert IsChild(t, m, k, children[k]);
    }
    if child in children {
      var k: nat :| k < |children| && children[k] == child;
      assert IsChild(t, m, k, children[k]);
    }
  }

  // ----- What is reported -----

  ghost predicate IsTwice(items: seq<A.Item>, k: nat) {
    k < |items| && items[k].ModItem? && exists j: nat :: j < k && items[j].ModItem? && items[j].name == items[k].name
  }

  ghost predicate LacksFile(files: seq<File>, dir: Path, item: A.Item)
    requires item.ModItem?
  {
    !item.isInline && NoFileAt(files, dir + [item.name + ".al"]) && NoFileAt(files, dir + [item.name, "mod.al"])
  }

  /** A second declaration of a name is reported, and a first one whose file there is not. */
  ghost predicate IsReported(files: seq<File>, node: Node, k: nat, problem: Problem) {
    && k < |node.items| && node.items[k].ModItem?
    && match problem
       case DuplicateModule(name) => name == node.items[k].name && IsTwice(node.items, k)
       case MissingFile(name) =>
         name == node.items[k].name && DeclaresFirst(node.items, k) && LacksFile(files, node.dir, node.items[k])
       case UnreachableFile(_) => false
  }

  lemma NoChildWithoutFile(files: seq<File>, node: Node, item: A.Item)
    requires item.ModItem?
    ensures ChildOf(files, node, item).None? <==> LacksFile(files, node.dir, item)
  {
    FindsFirst(files, node.dir + [item.name + ".al"], 0, 0);
    FindsFirst(files, node.dir + [item.name, "mod.al"], 0, 0);
  }

  lemma NewProblem(files: seq<File>, node: Node, k: nat, problem: Problem)
    requires k < |node.items|
    ensures var before := DeclareFirst(files, node, k).problems;
      problem in Declare(files, node, node.items[k], DeclareFirst(files, node, k)).problems <==>
        (problem in before || IsReported(files, node, k, problem))
  {
    var item := node.items[k];
    if item.ModItem? {
      DeclaredNames(files, node, k, item.name);
      NoChildWithoutFile(files, node, item);
      assert DeclaresFirst(node.items, k) <==> item.name !in DeclareFirst(files, node, k).declared;
      assert IsTwice(node.items, k) <==> item.name in DeclareFirst(files, node, k).declared;
    }
  }

  lemma {:induction false} ProblemsAreReported(files: seq<File>, node: Node, k: nat, problem: Problem)
    requires k <= |node.items|
    ensures problem in DeclareFirst(files, node, k).problems <==> exists j: nat :: j < k && IsReported(files, node, j, problem)
  {
    if k > 0 {
      ProblemsAreReported(files, node, k - 1, problem);
      NewProblem(files, node, k - 1, problem);
    }
  }
}
