/** Packages and their dependencies: what a manifest leads to, and when that is finite. */
module Packages {
  import opened Paths

  /** What loading a manifest may give; one that cannot be read is not in the map. */
  datatype Manifest = Parsed(deps: seq<string>) | Unparsable

  /** The manifests there are, by the canonical directory of their package. */
  type Manifests = map<string, Manifest>

  predicate Loads(m: Manifests, dir: string) {
    dir in m && m[dir].Parsed?
  }

  /** The directory of the `k`-th dependency. */
  function DepDir(m: Manifests, dir: string, k: nat): string
    requires Loads(m, dir) && k < |m[dir].deps|
  {
    Join(dir, m[dir].deps[k])
  }

  ghost predicate DependsOn(m: Manifests, dir: string, dep: string) {
    Loads(m, dir) && exists k: nat :: k < |m[dir].deps| && DepDir(m, dir, k) == dep
  }

  // ----- Unfoldings -----

  datatype Tree = Node(dir: string, deps: Forest)
  datatype Forest = Nil | Cons(head: Tree, tail: Forest)

  /** A tree of packages in which every package has all its dependencies below it. */
  ghost predicate IsUnfolding(m: Manifests, t: Tree)
    decreases t
  {
    Loads(m, t.dir) && IsForest(m, t.dir, 0, t.deps)
  }

  ghost predicate IsForest(m: Manifests, dir: string, k: nat, f: Forest)
    requires Loads(m, dir)
    decreases f
  {
    match f
    case Nil => k == |m[dir].deps|
    case Cons(head, tail) =>
      && k < |m[dir].deps| && head.dir == DepDir(m, dir, k) && IsUnfolding(m, head)
      && IsForest(m, dir, k + 1, tail)
  }

  ghost predicate HasUnfolding(m: Manifests, dir: string) {
    exists t :: IsUnfolding(m, t) && t.dir == dir
  }

  /** Depth first, a package before its dependencies; shared ones come once for each path. */
  function Flatten(t: Tree): seq<string>
    decreases t
  {
    [t.dir] + FlattenAll(t.deps)
  }

  function FlattenAll(f: Forest): seq<string>
    decreases f
  {
    match f
    case Nil => []
    case Cons(head, tail) => Flatten(head) + FlattenAll(tail)
  }

  function Size(t: Tree): nat
    decreases t
  {
    1 + SizeAll(t.deps)
  }

  function SizeAll(f: Forest): nat
    decreases f
  {
    match f
    case Nil => 0
    case Cons(head, tail) => Size(head) + SizeAll(tail)
  }

  /** There is at most one unfolding. */
  lemma {:induction false} UnfoldingIsUnique(m: Manifests, t: Tree, u: Tree)
    requires IsUnfolding(m, t) && IsUnfolding(m, u) && t.dir == u.dir
    ensures t == u
    decreases t
  {
    ForestIsUnique(m, t.dir, 0, t.deps, u.deps);
  }

  lemma {:induction false} ForestIsUnique(m: Manifests, dir: string, k: nat, f: Forest, g: Forest)
    requires Loads(m, dir) && IsForest(m, dir, k, f) && IsForest(m, dir, k, g)
    ensures f == g
    decreases f
  {
    if f.Cons? && g.Cons? {
      UnfoldingIsUnique(m, f.head, g.head);
      ForestIsUnique(m, dir, k + 1, f.tail, g.tail);
    }
  }

  // ----- Walks -----

  datatype Walk = Stop(at: string) | Go(at: string, rest: Walk)

  ghost predicate IsWalk(m: Manifests, w: Walk) {
    w.Go? ==> DependsOn(m, w.at, w.rest.at) && IsWalk(m, w.rest)
  }

  function End(w: Walk): string {
    match w
    case Stop(d) => d
    case Go(_, rest) => End(rest)
  }

  ghost predicate Reaches(m: Manifests, from: string, to: string) {
    exists w :: IsWalk(m, w) && w.at == from && End(w) == to
  }

  ghost predicate IsCyclic(m: Manifests, dir: string) {
    exists dep :: DependsOn(m, dir, dep) && Reaches(m, dep, dir)
  }

  lemma ReachesSelf(m: Manifests, dir: string)
    ensures Reaches(m, dir, dir)
  {
    assert IsWalk(m, Stop(dir));
  }

  lemma ReachesOn(m: Manifests, dir: string, dep: string, to: string)
    requires DependsOn(m, dir, dep) && Reaches(m, dep, to)
    ensures Reaches(m, dir, to)
  {
    var w :| IsWalk(m, w) && w.at == dep && End(w) == to;
    assert IsWalk(m, Go(dir, w));
  }

  // ----- What an unfolding tells -----

  lemma {:induction false} ForestHas(m: Manifests, dir: string, from: nat, f: Forest, k: nat) returns (t: Tree)
    requires Loads(m, dir) && IsForest(m, dir, from, f) && from <= k < |m[dir].deps|
    ensures IsUnfolding(m, t) && t.dir == DepDir(m, dir, k) && Size(t) <= SizeAll(f)
    decreases f
  {
    if k == from {
      t := f.head;
    } else {
      t := ForestHas(m, dir, from + 1, f.tail, k);
    }
  }

  /** Along a walk the unfoldings get smaller. */
  lemma {:induction false} WalkUnfolds(m: Manifests, t: Tree, w: Walk) returns (u: Tree)
    requires IsUnfolding(m, t) && IsWalk(m, w) && w.at == t.dir
    ensures IsUnfolding(m, u) && u.dir == End(w) && Size(u) <= Size(t) && (w.Go? ==> Size(u) < Size(t))
    decreases w
  {
    if w.Stop? {
      u := t;
    } else {
      var k: nat :| k < |m[t.dir].deps| && DepDir(m, t.dir, k) == w.rest.at;
      var next := ForestHas(m, t.dir, 0, t.deps, k);
      u := WalkUnfolds(m, next, w.rest);
    }
  }

  /** Everything that an unfolded package leads to loads, and none of it leads to itself. */
  lemma UnfoldingLoadsAll(m: Manifests, dir: string, to: string)
    requires HasUnfolding(m, dir) && Reaches(m, dir, to)
    ensures Loads(m, to) && !IsCyclic(m, to)
  {
    var t :| IsUnfolding(m, t) && t.dir == dir;
    var w :| IsWalk(m, w) && w.at == dir && End(w) == to;
    var u := WalkUnfolds(m, t, w);
    if IsCyclic(m, to) {
      NoUnfoldingOnCycles(m, to);
    }
  }

  lemma NoUnfoldingOnCycles(m: Manifests, dir: string)
    requires IsCyclic(m, dir)
    ensures !HasUnfolding(m, dir)
  {
    if HasUnfolding(m, dir) {
      var t :| IsUnfolding(m, t) && t.dir == dir;
      var dep :| DependsOn(m, dir, dep) && Reaches(m, dep, dir);
      var w :| IsWalk(m, w) && w.at == dep && End(w) == dir;
      var u := WalkUnfolds(m, t, Go(dir, w));
      UnfoldingIsUnique(m, t, u);
    }
  }

  // ----- When there is an unfolding -----

  /** Does everything in reach load, and nothing in reach lead to itself? */
  ghost predicate IsSound(m: Manifests, dir: string) {
    forall to | Reaches(m, dir, to) :: Loads(m, to) && !IsCyclic(m, to)
  }

  lemma SoundStays(m: Manifests, dir: string, dep: string)
    requires IsSound(m, dir) && DependsOn(m, dir, dep)
    ensures IsSound(m, dep)
  {
    forall to | Reaches(m, dep, to) ensures Reaches(m, dir, to) {
      ReachesOn(m, dir, dep, to);
    }
  }

  /** The packages on the way to a package, each reaching it. */
  ghost predicate IsWay(m: Manifests, way: set<string>, dir: string) {
    forall d <- way :: Loads(m, d) && exists dep :: DependsOn(m, d, dep) && Reaches(m, dep, dir)
  }

  lemma WayGoesOn(m: Manifests, way: set<string>, dir: string, dep: string)
    requires IsWay(m, way, dir) && DependsOn(m, dir, dep)
    ensures IsWay(m, way + {dir}, dep)
  {
    forall d <- way + {dir} ensures Loads(m, d) && exists next :: DependsOn(m, d, next) && Reaches(m, next, dep) {
      if d in way {
        var next :| DependsOn(m, d, next) && Reaches(m, next, dir);
        var w :| IsWalk(m, w) && w.at == next && End(w) == dir;
        WalkGoesOn(m, w, dep);
      } else {
        ReachesSelf(m, dep);
      }
    }
  }

  lemma {:induction false} WalkGoesOn(m: Manifests, w: Walk, dep: string)
    requires IsWalk(m, w) && DependsOn(m, End(w), dep)
    ensures Reaches(m, w.at, dep)
  {
    if w.Stop? {
      ReachesSelf(m, dep);
      ReachesOn(m, w.at, dep, dep);
    } else {
      WalkGoesOn(m, w.rest, dep);
      ReachesOn(m, w.at, w.rest.at, dep);
    }
  }

  lemma NotOnWay(m: Manifests, dir: string, way: set<string>)
    requires IsSound(m, dir) && IsWay(m, way, dir)
    ensures Loads(m, dir) && dir !in way
  {
    ReachesSelf(m, dir);
  }

  lemma WayShrinks(m: Manifests, dir: string, way: set<string>)
    requires dir in m && dir !in way
    ensures m.Keys - (way + {dir}) < m.Keys - way
  {
    assert dir in m.Keys - way && dir !in m.Keys - (way + {dir});
  }

  /** Sound packages have an unfolding: no way to one can get longer than the map. */
  lemma {:induction false} SoundUnfolds(m: Manifests, dir: string, way: set<string>) returns (t: Tree)
    requires IsSound(m, dir) && IsWay(m, way, dir)
    ensures IsUnfolding(m, t) && t.dir == dir
    decreases m.Keys - way, 1, 0
  {
    NotOnWay(m, dir, way);
    var f := SoundForest(m, dir, way, 0);
    t := Node(dir, f);
  }

  lemma {:induction false} SoundForest(m: Manifests, dir: string, way: set<string>, k: nat) returns (f: Forest)
    requires IsSound(m, dir) && IsWay(m, way, dir) && Loads(m, dir) && dir !in way && k <= |m[dir].deps|
    ensures IsForest(m, dir, k, f)
    decreases m.Keys - way, 0, |m[dir].deps| - k
  {
    if k == |m[dir].deps| {
      f := Nil;
    } else {
      var dep := DepDir(m, dir, k);
      assert DependsOn(m, dir, dep);
      SoundStays(m, dir, dep);
      WayGoesOn(m, way, dir, dep);
      WayShrinks(m, dir, way);
      var longer := way + {dir};
      var head := SoundUnfolds(m, dep, longer);
      var tail := SoundForest(m, dir, way, k + 1);
      f := Cons(head, tail);
    }
  }

  /** There is a finite unfolding exactly when everything in reach loads and nothing in reach
      leads back to itself. */
  lemma UnfoldsExactlyWhenSound(m: Manifests, dir: string)
    ensures HasUnfolding(m, dir) <==> IsSound(m, dir)
  {
    if HasUnfolding(m, dir) {
      forall to | Reaches(m, dir, to) ensures Loads(m, to) && !IsCyclic(m, to) {
        UnfoldingLoadsAll(m, dir, to);
      }
    }
    if IsSound(m, dir) {
      var t := SoundUnfolds(m, dir, {});
    }
  }
}
