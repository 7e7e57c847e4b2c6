/** The order of resolved packages, said by the ways that lead to them from the root. */
module PackageOrder {
  import opened Options
  import opened Paths
  import opened Packages

  /** A way is a choice of a dependency at each package, by its place in the manifest. */
  type Way = seq<nat>

  /** The package that a way leads to; each directory is spelled relative to the package that
      depends on it. */
  function PackageAt(m: Manifests, dir: string, way: Way): Option<string>
    decreases |way|
  {
    if way == [] then Some(dir)
    else if dir in m && m[dir].Parsed? && way[0] < |m[dir].deps| then
      PackageAt(m, Join(dir, m[dir].deps[way[0]]), way[1..])
    else None
  }

  /** A way comes before those that go on from it, and before those that take a later dependency
      where they part. */
  predicate ComesBefore(a: Way, b: Way) {
    b != [] && (a == [] || a[0] < b[0] || (a[0] == b[0] && ComesBefore(a[1..], b[1..])))
  }

  ghost predicate InOrder(ways: seq<Way>) {
    forall i, j | 0 <= i < j < |ways| :: ComesBefore(ways[i], ways[j])
  }

  // ----- The ways of an unfolding -----

  function Ways(t: Tree): seq<Way>
    decreases t
  {
    [[]] + WaysAll(t.deps, 0)
  }

  function WaysAll(f: Forest, k: nat): seq<Way>
    decreases f
  {
    match f
    case Nil => []
    case Cons(head, tail) => Through(k, Ways(head)) + WaysAll(tail, k + 1)
  }

  function Through(k: nat, ways: seq<Way>): (r: seq<Way>)
    ensures |r| == |ways| && forall i | 0 <= i < |r| :: r[i] == [k] + ways[i]
  {
    seq(|ways|, i requires 0 <= i < |ways| => [k] + ways[i])
  }

  /** Each entry is what its way leads to. */
  ghost predicate Leads(m: Manifests, dir: string, ways: seq<Way>, dirs: seq<string>) {
    |ways| == |dirs| && forall i | 0 <= i < |ways| :: PackageAt(m, dir, ways[i]) == Some(dirs[i])
  }

  ghost predicate AllFrom(ways: seq<Way>, k: nat) {
    forall i | 0 <= i < |ways| :: ways[i] != [] && ways[i][0] >= k
  }

  lemma ThroughLeads(m: Manifests, dir: string, k: nat, ways: seq<Way>, dirs: seq<string>)
    requires Loads(m, dir) && k < |m[dir].deps| && Leads(m, DepDir(m, dir, k), ways, dirs) && InOrder(ways)
    ensures Leads(m, dir, Through(k, ways), dirs) && InOrder(Through(k, ways))
  {
    var through := Through(k, ways);
    forall i | 0 <= i < |ways| ensures PackageAt(m, dir, through[i]) == Some(dirs[i]) {
      assert through[i][1..] == ways[i];
    }
    forall i, j | 0 <= i < j < |ways| ensures ComesBefore(through[i], through[j]) {
      assert through[i][1..] == ways[i] && through[j][1..] == ways[j];
      assert ComesBefore(ways[i], ways[j]);
    }
  }

  lemma LeadsTogether(m: Manifests, dir: string, a: seq<Way>, b: seq<Way>, p: seq<string>, q: seq<string>)
    requires Leads(m, dir, a, p) && Leads(m, dir, b, q)
    ensures Leads(m, dir, a + b, p + q)
  {
  }

  lemma OrderedTogether(a: seq<Way>, b: seq<Way>)
    requires InOrder(a) && InOrder(b) && forall i, j | 0 <= i < |a| && 0 <= j < |b| :: ComesBefore(a[i], b[j])
    ensures InOrder(a + b)
  {
    var c := a + b;
    forall i, j | 0 <= i < j < |c| ensures ComesBefore(c[i], c[j]) {
      if i < |a| && j >= |a| {
        assert ComesBefore(a[i], b[j - |a|]);
      }
    }
  }

  lemma {:induction false} WaysLead(m: Manifests, t: Tree)
    requires IsUnfolding(m, t)
    ensures Leads(m, t.dir, Ways(t), Flatten(t)) && InOrder(Ways(t))
    decreases t
  {
    WaysAllLead(m, t.dir, t.deps, 0);
    LeadsTogether(m, t.dir, [[]], WaysAll(t.deps, 0), [t.dir], FlattenAll(t.deps));
    OrderedTogether([[]], WaysAll(t.deps, 0));
  }

  lemma {:induction false} WaysAllLead(m: Manifests, dir: string, f: Forest, k: nat)
    requires Loads(m, dir) && IsForest(m, dir, k, f)
    ensures Leads(m, dir, WaysAll(f, k), FlattenAll(f)) && InOrder(WaysAll(f, k)) && AllFrom(WaysAll(f, k), k)
    decreases f
  {
    if f.Cons? {
      WaysLead(m, f.head);
      WaysAllLead(m, dir, f.tail, k + 1);
      ThroughLeads(m, dir, k, Ways(f.head), Flatten(f.head));
      LeadsTogether(m, dir, Through(k, Ways(f.head)), WaysAll(f.tail, k + 1), Flatten(f.head), FlattenAll(f.tail));
      OrderedTogether(Through(k, Ways(f.head)), WaysAll(f.tail, k + 1));
    }
  }

  /** No way is left out. */
  lemma {:induction false} WaysAreAll(m: Manifests, t: Tree, way: Way)
    requires IsUnfolding(m, t) && PackageAt(m, t.dir, way).Some?
    ensures way in Ways(t)
    decreases t
  {
    if way != [] {
      WaysAllAreAll(m, t.dir, t.deps, 0, way);
    }
  }

  lemma {:induction false} WaysAllAreAll(m: Manifests, dir: string, f: Forest, k: nat, way: Way)
    requires Loads(m, dir) && IsForest(m, dir, k, f) && way != [] && way[0] >= k && PackageAt(m, dir, way).Some?
    ensures way in WaysAll(f, k)
    decreases f
  {
    if way[0] == k {
      WaysAreAll(m, f.head, way[1..]);
      var i :| 0 <= i < |Ways(f.head)| && Ways(f.head)[i] == way[1..];
      assert Through(k, Ways(f.head))[i] == way;
    } else {
      WaysAllAreAll(m, dir, f.tail, k + 1, way);
    }
  }

  /** What is resolved: one package for each way there is, shared ones once for each way, in the
      order of the ways. */
  ghost predicate IsResolution(m: Manifests, dir: string, packages: seq<string>) {
    exists ways :: InOrder(ways) && Leads(m, dir, ways, packages) && forall way | PackageAt(m, dir, way).Some? :: way in ways
  }

  lemma FlattenIsResolution(m: Manifests, t: Tree)
    requires IsUnfolding(m, t)
    ensures IsResolution(m, t.dir, Flatten(t))
  {
    WaysLead(m, t);
    forall way | PackageAt(m, t.dir, way).Some? ensures way in Ways(t) {
      WaysAreAll(m, t, way);
    }
  }
}
