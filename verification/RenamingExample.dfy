/** What the pass does to a name that is declared three times. */
module RenamingExample {
  import opened Options
  import opened Spelling
  import opened Scoping
  import opened Renaming

  lemma TwoTrees(below: seq<seq<Binding>>, st: State, t: Tree<string>, u: Tree<string>)
    ensures var (st1, t') := VisitTree(below, st, t); var (st2, u') := VisitTree(below, st1, u);
      VisitTrees(below, st, [t, u]) == (st2, [t', u'])
  {
    assert [t, u][1..] == [u] && [u][1..] == [];
    var (st1, t') := VisitTree(below, st, t);
    var (st2, u') := VisitTree(below, st1, u);
    assert VisitTrees(below, st1, [u]) == (st2, [u'] + []);
    assert [t'] + ([u'] + []) == [t', u'];
  }

  lemma GroupOfTwo(below: seq<seq<Binding>>, st: State, form: Form, t: Tree<string>, u: Tree<string>,
                   st1: State, t': Tree<string>, st2: State, u': Tree<string>)
    requires VisitTree(below, st, t) == (st1, t') && VisitTree(below, st1, u) == (st2, u')
    ensures VisitTree(below, st, Group(form, [t, u])) == (st2, Group(form, [t', u']))
  {
    TwoTrees(below, st, t, u);
  }

  /** A block that declares `x` and uses it. */
  function Example(name: string): Tree<string> {
    Scope(BlockForm(false), [Bind(Binder(false, name)), Use(name)])
  }

  lemma ExampleIsFreshened(n: nat)
    ensures var outer := [Binding("x", "x", false, false)];
      VisitTree([[]], State(outer, n, []), Example("x")) == (State(outer, n + 1, []), Example(Minted("x", n)))
  {
    var none: seq<Binding> := [];
    var outer := [Binding("x", "x", false, false)];
    var inside := [none] + [outer];
    var minted := [Binding("x", Minted("x", n), false, false)];
    TwoTrees(inside, State([], n, []), Bind(Binder(false, "x")), Use("x"));
    assert Shadows(inside, "x") by { assert "x" in Origs(inside[1]); }
    assert Lookup(inside + [minted], "x") == Minted("x", n);
  }

  lemma FirstIsKept()
    ensures var x := Bind(Binder(false, "x"));
      VisitTree([[]], INITIAL, x) == (State([Binding("x", "x", false, false)], 0, []), x)
  {
    var none: seq<Binding> := [];
    assert Origs(none) == [];
    assert !Shadows([none], "x");
    assert Declare([none], INITIAL, "x").0.top == [Binding("x", "x", false, false)];
  }

  lemma FirstMints()
    ensures Minted("x", 0) == "x$0" && Minted("x", 1) == "x$1"
  {
  }

  lemma ExamplesAreFreshened(form: Form)
    ensures var outer := [Binding("x", "x", false, false)];
      VisitTree([[]], State(outer, 0, []), Group(form, [Example("x"), Example("x")]))
      == (State(outer, 2, []), Group(form, [Example("x$0"), Example("x$1")]))
  {
    ExampleIsFreshened(0);
    ExampleIsFreshened(1);
    FirstMints();
    var outer := [Binding("x", "x", false, false)];
    GroupOfTwo([[]], State(outer, 0, []), form, Example("x"), Example("x"),
      State(outer, 1, []), Example(Minted("x", 0)), State(outer, 2, []), Example(Minted("x", 1)));
  }

  /** The first declaration keeps its name, and those in blocks inside get the next numbers:
      `{ x := 1; { x := 2; x }; { x := 3; x } }` has `x`, `x$0` and `x$1`. */
  lemma FirstKeepsItsName(form: Form, group: Form)
    ensures var x := Bind(Binder(false, "x"));
      Run(Scope(form, [x, Group(group, [Example("x"), Example("x")])])).1
      == Scope(form, [x, Group(group, [Example("x$0"), Example("x$1")])])
  {
    var none: seq<Binding> := [];
    var nothing: seq<seq<Binding>> := [];
    assert nothing + [none] == [none];
    FirstIsKept();
    ExamplesAreFreshened(group);
    TwoTrees([none], INITIAL, Bind(Binder(false, "x")), Group(group, [Example("x"), Example("x")]));
  }
}
