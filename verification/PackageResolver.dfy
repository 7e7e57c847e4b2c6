/** The package resolver: depth first through the dependencies, with the path as a stack. */
module PackageResolver {
  import opened Options
  import opened Paths
  import opened Packages
  import opened PackageOrder
  import PathNormalizer

  class PackageResolver {
    const manifests: Manifests
    /** The packages from the root to here. */
    var visited: seq<string>
    var errors: nat

    constructor (manifests: Manifests)
      ensures this.manifests == manifests && visited == [] && errors == 0
    {
      this.manifests := manifests;
      visited := [];
      errors := 0;
    }

    /** Resolves the package in a directory as the user spells it: succeeds exactly when all
        that it leads to loads and nothing of it leads back to itself. */
    method ResolvePackage(dir: string) returns (r: Option<seq<string>>)
      requires visited == []
      modifies this
      ensures r.Some? <==> '\0' !in dir && IsSound(manifests, Normal(dir))
      ensures r.Some? ==>
        (exists t :: IsUnfolding(manifests, t) && t.dir == Normal(dir) && r.value == Flatten(t)) && visited == []
      ensures r.Some? ==> IsResolution(manifests, Normal(dir), r.value)
      ensures errors == old(errors) + if r.Some? then 0 else 1
    {
      var canonical := PathNormalizer.FromNative(dir);
      if canonical.None? {
        errors := errors + 1;
        return None;
      }
      UnfoldsExactlyWhenSound(manifests, Normal(dir));
      r := ResolveInto(canonical.value);
      if r.Some? {
        ghost var t :| IsUnfolding(manifests, t) && t.dir == Normal(dir) && r.value == Flatten(t);
        FlattenIsResolution(manifests, t);
      }
    }

    ghost function Way(): set<string>
      reads this
    {
      set d | d in visited
    }

    /** Gives the packages of the unfolding, depth first; without one it fails, and reports
        why. */
    method ResolveInto(dir: string) returns (r: Option<seq<string>>)
      requires IsWay(manifests, Way(), dir)
      modifies this
      ensures r.Some? == HasUnfolding(manifests, dir)
      ensures r.Some? ==> (exists t :: IsUnfolding(manifests, t) && t.dir == dir && r.value == Flatten(t))
      ensures r.Some? ==> visited == old(visited) && errors == old(errors)
      ensures r.None? ==> errors == old(errors) + 1
      decreases manifests.Keys - Way(), 1, 0
    {
      for k := 0 to |visited|
        invariant dir !in visited[..k]
        invariant visited == old(visited) && errors == old(errors)
      {
        if visited[k] == dir {
          OnWayIsCyclic(manifests, Way(), dir);
          errors := errors + 1;
          return None;
        }
      }
      assert visited[..|visited|] == visited;
      ghost var way := Way();
      visited := visited + [dir];
      assert Way() == way + {dir};
      if !Loads(manifests, dir) {
        errors := errors + 1;
        return None;
      }
      WayShrinks(manifests, dir, way);
      r := ResolveDeps(dir, way);
      if r.Some? {
        visited := visited[..|visited| - 1];
      }
    }

    /** The package itself, followed by what its dependencies resolve to. */
    method ResolveDeps(dir: string, ghost way: set<string>) returns (r: Option<seq<string>>)
      requires Loads(manifests, dir) && IsWay(manifests, way, dir) && Way() == way + {dir}
      modifies this
      ensures r.Some? == HasUnfolding(manifests, dir)
      ensures r.Some? ==> (exists t :: IsUnfolding(manifests, t) && t.dir == dir && r.value == Flatten(t))
      ensures r.Some? ==> visited == old(visited) && errors == old(errors)
      ensures r.None? ==> errors == old(errors) + 1
      decreases manifests.Keys - Way(), 3
    {
      var resolved := [dir];
      ghost var trees: seq<Tree> := [];
      for k := 0 to |manifests[dir].deps|
        invariant visited == old(visited) && errors == old(errors)
        invariant AreDeps(manifests, dir, trees, k) && resolved == [dir] + FlattenSeq(trees)
      {
        var child, t := ResolveDep(dir, k, way);
        if child.None? {
          return None;
        }
        OneMoreDep(manifests, dir, trees, k, t);
        resolved := resolved + child.value;
        trees := trees + [t];
      }
      DepsMakeTree(manifests, dir, trees);
      return Some(resolved);
    }

    method ResolveDep(dir: string, k: nat, ghost way: set<string>) returns (r: Option<seq<string>>, ghost t: Tree)
      requires Loads(manifests, dir) && k < |manifests[dir].deps|
      requires IsWay(manifests, way, dir) && Way() == way + {dir}
      modifies this
      ensures r.Some? ==> IsUnfolding(manifests, t) && t.dir == DepDir(manifests, dir, k) && r.value == Flatten(t)
      ensures r.Some? ==> visited == old(visited) && errors == old(errors)
      ensures r.None? ==> errors == old(errors) + 1 && !HasUnfolding(manifests, dir)
      decreases manifests.Keys - Way(), 2
    {
      assert DependsOn(manifests, dir, DepDir(manifests, dir, k));
      WayGoesOn(manifests, way, dir, DepDir(manifests, dir, k));
      r := ResolveInto(Join(dir, manifests[dir].deps[k]));
      if r.None? {
        NeedsDep(manifests, dir, k);
        t := Node(dir, Nil);
      } else {
        t :| IsUnfolding(manifests, t) && t.dir == DepDir(manifests, dir, k) && r.value == Flatten(t);
      }
    }
  }

  lemma OnWayIsCyclic(m: Manifests, way: set<string>, dir: string)
    requires IsWay(m, way, dir) && dir in way
    ensures !HasUnfolding(m, dir)
  {
    assert IsCyclic(m, dir);
    NoUnfoldingOnCycles(m, dir);
  }

  /** Without an unfolding for a dependency there is none for the package. */
  lemma NeedsDep(m: Manifests, dir: string, k: nat)
    requires Loads(m, dir) && k < |m[dir].deps| && !HasUnfolding(m, DepDir(m, dir, k))
    ensures !HasUnfolding(m, dir)
  {
    if HasUnfolding(m, dir) {
      var t :| IsUnfolding(m, t) && t.dir == dir;
      var dep := ForestHas(m, dir, 0, t.deps, k);
    }
  }

  // ----- Forests as they grow -----

  /** The unfoldings of the first `n` dependencies. */
  ghost predicate AreDeps(m: Manifests, dir: string, trees: seq<Tree>, n: nat)
    requires Loads(m, dir)
  {
    && |trees| == n <= |m[dir].deps|
    && forall k: nat | k < n :: IsUnfolding(m, trees[k]) && trees[k].dir == DepDir(m, dir, k)
  }

  function ToForest(trees: seq<Tree>): Forest {
    if trees == [] then Nil else Cons(trees[0], ToForest(trees[1..]))
  }

  function FlattenSeq(trees: seq<Tree>): seq<string> {
    FlattenAll(ToForest(trees))
  }

  lemma {:induction false} FlattenOneMore(trees: seq<Tree>, t: Tree)
    ensures FlattenSeq(trees + [t]) == FlattenSeq(trees) + Flatten(t)
    decreases |trees|
  {
    if trees == [] {
      assert [t][1..] == [];
      assert FlattenAll(Cons(t, Nil)) == Flatten(t) + [];
    } else {
      assert (trees + [t])[1..] == trees[1..] + [t];
      FlattenOneMore(trees[1..], t);
    }
  }

  lemma OneMoreDep(m: Manifests, dir: string, trees: seq<Tree>, k: nat, t: Tree)
    requires Loads(m, dir) && AreDeps(m, dir, trees, k) && k < |m[dir].deps|
    requires IsUnfolding(m, t) && t.dir == DepDir(m, dir, k)
    ensures AreDeps(m, dir, trees + [t], k + 1)
    ensures [dir] + FlattenSeq(trees + [t]) == [dir] + FlattenSeq(trees) + Flatten(t)
  {
    FlattenOneMore(trees, t);
  }

  lemma DepsMakeTree(m: Manifests, dir: string, trees: seq<Tree>)
    requires Loads(m, dir) && AreDeps(m, dir, trees, |m[dir].deps|)
    ensures var t := Node(dir, ToForest(trees));
      IsUnfolding(m, t) && Flatten(t) == [dir] + FlattenSeq(trees)
  {
    DepsMakeForest(m, dir, trees, 0);
    assert trees[0..] == trees;
  }

  lemma {:induction false} DepsMakeForest(m: Manifests, dir: string, trees: seq<Tree>, from: nat)
    requires Loads(m, dir) && from <= |m[dir].deps| == |trees| && AreDeps(m, dir, trees, |trees|)
    ensures IsForest(m, dir, from, ToForest(trees[from..]))
    decreases |trees| - from
  {
    if from < |trees| {
      assert trees[from..][1..] == trees[from + 1..];
      DepsMakeForest(m, dir, trees, from + 1);
    }
  }
}
