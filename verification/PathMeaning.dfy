/** What paths mean: the places they lead to from a directory.  Canonical paths are exactly as
    good as the paths they come from, and no two of them are equally good. */
module PathMeaning {
  import opened Paths

  /** A place by the names on the way to it from the root. */
  type Place = seq<string>

  /** One segment on: an empty one and a dot stay, two dots go up, where the root is above itself,
      and a name goes down. */
  function Walk(place: Place, part: string): Place {
    if part == "" || part == "." then place
    else if part != ".." then place + [part]
    else if place == [] then []
    else place[..|place| - 1]
  }

  function WalkAll(place: Place, parts: seq<string>): Place
    decreases |parts|
  {
    if parts == [] then place else WalkAll(Walk(place, parts[0]), parts[1..])
  }

  /** Where a path leads from a directory. */
  function Leads(dir: Place, path: string): Place {
    if IsAbsolute(path) then WalkAll([], Parts(path, 1)) else WalkAll(dir, Parts(path, 0))
  }

  // ----- What the fold keeps of the walk -----

  function Up(place: Place, n: nat): Place {
    if n >= |place| then [] else place[..|place| - n]
  }

  /** Where a state stands for: up first, then down. */
  function PlaceOf(dir: Place, st: State): Place {
    Up(dir, st.ups) + st.names
  }

  lemma StepWalks(absolute: bool, dir: Place, st: State, part: string)
    requires absolute ==> dir == [] && st.ups == 0
    ensures PlaceOf(dir, Step(absolute, st, part)) == Walk(PlaceOf(dir, st), part)
  {
    var place := PlaceOf(dir, st);
    if part == ".." && st.names != [] {
      assert place[..|place| - 1] == Up(dir, st.ups) + st.names[..|st.names| - 1];
    } else if part == ".." {
      assert place == Up(dir, st.ups);
    }
  }

  lemma {:induction false} FoldWalks(absolute: bool, dir: Place, st: State, parts: seq<string>)
    requires absolute ==> dir == [] && st.ups == 0
    ensures PlaceOf(dir, Fold(absolute, st, parts)) == WalkAll(PlaceOf(dir, st), parts)
    decreases |parts|
  {
    if parts != [] {
      StepWalks(absolute, dir, st, parts[0]);
      FoldWalks(absolute, dir, Step(absolute, st, parts[0]), parts[1..]);
    }
  }

  lemma LeadsByTarget(dir: Place, path: string)
    ensures Leads(dir, path) == PlaceOf(if IsAbsolute(path) then [] else dir, Target(path))
  {
    var start := if IsAbsolute(path) then [] else dir;
    assert PlaceOf(start, NOWHERE) == start;
    FoldWalks(IsAbsolute(path), start, NOWHERE, Parts(path, if IsAbsolute(path) then 1 else 0));
  }

  // ----- The canonical path -----

  /** From every directory the canonical path leads where the path leads. */
  lemma NormalLeadsTheSame(dir: Place, path: string)
    ensures Leads(dir, Normal(path)) == Leads(dir, path)
  {
    NormalIsNotEmpty(path);
    LeadsByTarget(dir, path);
    LeadsByTarget(dir, Normal(path));
  }

  /** A joined path leads where the second leads from where the first leads; a leading separator
      of the second does not count. */
  lemma JoinLeadsOn(dir: Place, x: string, y: string)
    requires x != ""
    ensures Leads(dir, Join(x, y)) == WalkAll(Leads(dir, x), Parts(y, 0))
  {
    NormalLeadsTheSame(dir, x + [SEPARATOR] + y);
    TargetOfJoined(x, y);
    LeadsByTarget(dir, x);
    LeadsByTarget(dir, x + [SEPARATOR] + y);
    TargetIsCanonical(x);
    FoldWalks(IsAbsolute(x), if IsAbsolute(x) then [] else dir, Target(x), Parts(y, 0));
  }

  /** A directory that many levels down, with names that no path has. */
  function Deep(n: nat): Place {
    seq(n, i => "")
  }

  lemma DifferentStatesDiffer(a: State, b: State, n: nat)
    requires IsCanonical(false, a) && IsCanonical(false, b) && n >= a.ups && n >= b.ups
    requires PlaceOf(Deep(n), a) == PlaceOf(Deep(n), b)
    ensures a == b
  {
    var p, q := PlaceOf(Deep(n), a), PlaceOf(Deep(n), b);
    if a.ups < b.ups {
      NamesStart(Deep(n), a, b, n);
    } else if b.ups < a.ups {
      NamesStart(Deep(n), b, a, n);
    } else {
      assert p[n - a.ups..] == a.names && q[n - b.ups..] == b.names;
    }
  }

  lemma NamesStart(dir: Place, a: State, b: State, n: nat)
    requires dir == Deep(n) && IsCanonical(false, b) && n >= b.ups > a.ups
    ensures PlaceOf(dir, a) != PlaceOf(dir, b)
  {
    var k := n - b.ups;
    assert PlaceOf(dir, a)[k] == "";
    if b.names == [] {
      assert |PlaceOf(dir, b)| == k;
    } else {
      assert PlaceOf(dir, b)[k] == b.names[0] && IsPlain(b.names[0]);
    }
  }

  /** Two paths have one canonical path exactly if both are absolute, or both are not, and they
      lead to the same place from every directory. */
  lemma CanonicalExactlyWhenSame(x: string, y: string)
    ensures Normal(x) == Normal(y)
      <==> IsAbsolute(x) == IsAbsolute(y) && forall dir :: Leads(dir, x) == Leads(dir, y)
  {
    if Normal(x) == Normal(y) {
      NormalIsNotEmpty(x);
      NormalIsNotEmpty(y);
      forall dir ensures Leads(dir, x) == Leads(dir, y) {
        NormalLeadsTheSame(dir, x);
        NormalLeadsTheSame(dir, y);
      }
    } else if IsAbsolute(x) == IsAbsolute(y) && forall dir :: Leads(dir, x) == Leads(dir, y) {
      TargetIsCanonical(x);
      TargetIsCanonical(y);
      var n := Target(x).ups + Target(y).ups;
      LeadsByTarget(Deep(n), x);
      LeadsByTarget(Deep(n), y);
      assert Leads(Deep(n), x) == Leads(Deep(n), y);
      if !IsAbsolute(x) {
        DifferentStatesDiffer(Target(x), Target(y), n);
      }
    }
  }

  // ----- Equations between spellings -----

  lemma PartsOfPlain(name: string)
    requires SEPARATOR !in name
    ensures Parts(name, 0) == [name]
  {
    NoSeparatorNoEnd(name, 0);
    assert name[0..] == name;
  }

  /** Two dots undo a name at the end of a path. */
  lemma DotsUndoName(x: string, name: string)
    requires x != "" && IsPlain(name)
    ensures Join(Join(x, name), "..") == Normal(x)
  {
    JoinsCompose(x + [SEPARATOR] + name, "..");
    NameThenDots(x, name);
  }

  lemma NameThenDots(x: string, name: string)
    requires x != "" && IsPlain(name)
    ensures Join(x + [SEPARATOR] + name, "..") == Normal(x)
  {
    var y := x + [SEPARATOR] + name;
    TargetOfJoined(y, "..");
    TargetOfJoined(x, name);
    PartsOfPlain(name);
    PartsOfPlain("..");
    NameAndDots(IsAbsolute(x), Target(x), name);
  }

  lemma NameAndDots(absolute: bool, st: State, name: string)
    requires IsPlain(name)
    ensures Fold(absolute, Fold(absolute, st, [name]), [".."]) == st
  {
    assert [name][1..] == [] && [".."][1..] == [];
    assert Fold(absolute, st, [name]) == Step(absolute, st, name);
    assert (st.names + [name])[..|st.names|] == st.names;
  }

  /** And inside one. */
  lemma DotsUndoNameInside(x: string, name: string, y: string)
    requires x != "" && IsPlain(name)
    ensures Normal(x + [SEPARATOR] + name + [SEPARATOR] + ".." + [SEPARATOR] + y) == Join(x, y)
  {
    var a := x + [SEPARATOR] + name;
    var b := a + [SEPARATOR] + "..";
    TargetOfJoined(x, name);
    TargetOfJoined(a, "..");
    TargetOfJoined(b, y);
    TargetOfJoined(x, y);
    PartsOfPlain(name);
    PartsOfPlain("..");
    NameAndDots(IsAbsolute(x), Target(x), name);
  }

  /** A dot, or nothing between two separators, changes nothing. */
  lemma DotChangesNothing(x: string, part: string, y: string)
    requires x != "" && (part == "." || part == "")
    ensures Normal(x + [SEPARATOR] + part + [SEPARATOR] + y) == Join(x, y)
  {
    var a := x + [SEPARATOR] + part;
    TargetOfJoined(x, part);
    TargetOfJoined(a, y);
    TargetOfJoined(x, y);
    PartsOfPlain(part);
    assert [part][1..] == [];
    assert Fold(IsAbsolute(x), Target(x), [part]) == Target(x);
  }
}
