/** Canonical paths: a fold over the segments of a spelling. */
module Paths {
  const SEPARATOR := '/'

  // ----- Segments -----

  /** Where the segment that starts at `i` ends. */
  function SegmentEnd(s: string, i: nat): (end: nat)
    requires i <= |s|
    ensures i <= end <= |s| && (end < |s| ==> s[end] == SEPARATOR)
    ensures forall k | i <= k < end :: s[k] != SEPARATOR
    decreases |s| - i
  {
    if i < |s| && s[i] != SEPARATOR then SegmentEnd(s, i + 1) else i
  }

  /** The segments from an index on; between two separators there is an empty one. */
  function Parts(s: string, i: nat): (parts: seq<string>)
    requires i <= |s|
    ensures parts != []
    decreases |s| - i
  {
    var end := SegmentEnd(s, i);
    if end == |s| then [s[i..]] else [s[i..end]] + Parts(s, end + 1)
  }

  // ----- The fold -----

  /** Leading `..` segments that nothing resolves, and the names after them. */
  datatype State = State(ups: nat, names: seq<string>)

  const NOWHERE := State(0, [])

  function Step(absolute: bool, st: State, part: string): State {
    if part == "" || part == "." then st
    else if part == ".." then
      if st.names != [] then st.(names := st.names[..|st.names| - 1])
      else if absolute then st
      else st.(ups := st.ups + 1)
    else st.(names := st.names + [part])
  }

  function Fold(absolute: bool, st: State, parts: seq<string>): State
    decreases |parts|
  {
    if parts == [] then st else Fold(absolute, Step(absolute, st, parts[0]), parts[1..])
  }

  function Dots(n: nat): seq<string> {
    if n == 0 then [] else Dots(n - 1) + [".."]
  }

  function Segments(st: State): seq<string> {
    Dots(st.ups) + st.names
  }

  function Render(segments: seq<string>): string {
    if segments == [] then ""
    else if |segments| == 1 then segments[0]
    else Render(segments[..|segments| - 1]) + [SEPARATOR] + segments[|segments| - 1]
  }

  predicate IsAbsolute(s: string) {
    s != "" && s[0] == SEPARATOR
  }

  /** Where a spelling leads. */
  function Target(s: string): State {
    Fold(IsAbsolute(s), NOWHERE, Parts(s, if IsAbsolute(s) then 1 else 0))
  }

  function Spell(absolute: bool, st: State): string {
    if absolute then [SEPARATOR] + Render(Segments(st))
    else if Segments(st) == [] then "." else Render(Segments(st))
  }

  /** The canonical spelling. */
  function Normal(s: string): string {
    Spell(IsAbsolute(s), Target(s))
  }

  function Join(path: string, child: string): string {
    Normal(path + [SEPARATOR] + child)
  }

  // ----- What the fold reaches -----

  predicate IsPlain(name: string) {
    name != "" && name != "." && name != ".." && SEPARATOR !in name
  }

  /** Names are plain, and nothing is above the root. */
  ghost predicate IsCanonical(absolute: bool, st: State) {
    (forall k | 0 <= k < |st.names| :: IsPlain(st.names[k])) && (absolute ==> st.ups == 0)
  }

  ghost predicate NoSeparators(parts: seq<string>) {
    forall k | 0 <= k < |parts| :: SEPARATOR !in parts[k]
  }

  lemma {:induction false} PartsHaveNone(s: string, i: nat)
    requires i <= |s|
    ensures NoSeparators(Parts(s, i))
    decreases |s| - i
  {
    var end := SegmentEnd(s, i);
    if end < |s| {
      PartsHaveNone(s, end + 1);
    }
  }

  lemma {:induction false} FoldIsCanonical(absolute: bool, st: State, parts: seq<string>)
    requires IsCanonical(absolute, st) && NoSeparators(parts)
    ensures IsCanonical(absolute, Fold(absolute, st, parts))
    decreases |parts|
  {
    if parts != [] {
      FoldIsCanonical(absolute, Step(absolute, st, parts[0]), parts[1..]);
    }
  }

  lemma TargetIsCanonical(s: string)
    ensures IsCanonical(IsAbsolute(s), Target(s))
  {
    var i := if IsAbsolute(s) then 1 else 0;
    PartsHaveNone(s, i);
    FoldIsCanonical(IsAbsolute(s), NOWHERE, Parts(s, i));
  }

  lemma {:induction false} FoldAppends(absolute: bool, st: State, a: seq<string>, b: seq<string>)
    ensures Fold(absolute, st, a + b) == Fold(absolute, Fold(absolute, st, a), b)
    decreases |a|
  {
    if a == [] {
      assert a + b == b;
    } else {
      assert (a + b)[1..] == a[1..] + b;
      FoldAppends(absolute, Step(absolute, st, a[0]), a[1..], b);
    }
  }

  // ----- Splitting what was joined -----

  lemma {:induction false} SegmentEndAfter(p: string, s: string, i: nat)
    requires i <= |s|
    ensures SegmentEnd(p + s, |p| + i) == |p| + SegmentEnd(s, i)
    decreases |s| - i
  {
    if i < |s| && s[i] != SEPARATOR {
      SegmentEndAfter(p, s, i + 1);
    }
  }

  lemma SliceAfter(p: string, s: string, i: nat, j: nat)
    requires i <= j <= |s|
    ensures (p + s)[|p| + i..|p| + j] == s[i..j]
  {
  }

  /** The first segment, and then the others. */
  lemma PartsFirst(s: string, i: nat)
    requires i <= |s|
    ensures if SegmentEnd(s, i) == |s| then Parts(s, i) == [s[i..SegmentEnd(s, i)]]
            else Parts(s, i) == [s[i..SegmentEnd(s, i)]] + Parts(s, SegmentEnd(s, i) + 1)
  {
    assert s[i..] == s[i..|s|];
  }

  /** What stands before does not matter. */
  lemma {:induction false} PartsAfter(p: string, s: string, i: nat)
    requires i <= |s|
    ensures Parts(p + s, |p| + i) == Parts(s, i)
    decreases |s| - i
  {
    var end := SegmentEnd(s, i);
    SegmentEndAfter(p, s, i);
    SliceAfter(p, s, i, end);
    PartsFirst(p + s, |p| + i);
    PartsFirst(s, i);
    if end < |s| {
      PartsAfter(p, s, end + 1);
      assert |p| + end + 1 == |p| + (end + 1);
    }
  }

  lemma {:induction false} SegmentEndBefore(a: string, s: string, i: nat)
    requires i <= |a|
    ensures SegmentEnd(a + [SEPARATOR] + s, i) == SegmentEnd(a, i)
    decreases |a| - i
  {
    if i < |a| && a[i] != SEPARATOR {
      SegmentEndBefore(a, s, i + 1);
    }
  }

  /** One more element in front of an equation. */
  lemma InFront(first: string, a: seq<string>, b: seq<string>, both: seq<string>)
    requires both == a + b
    ensures [first] + both == ([first] + a) + b
  {
  }

  lemma PartsOfJoinedLast(a: string, s: string, i: nat)
    requires i <= |a| && SegmentEnd(a, i) == |a|
    ensures Parts(a + [SEPARATOR] + s, i) == Parts(a, i) + Parts(s, 0)
  {
    var all := a + [SEPARATOR] + s;
    SegmentEndBefore(a, s, i);
    assert all[i..|a|] == a[i..];
    PartsAfter(a + [SEPARATOR], s, 0);
  }

  lemma PartsOfJoinedFirst(a: string, s: string, i: nat)
    requires i <= |a| && SegmentEnd(a, i) < |a|
    ensures var all, end := a + [SEPARATOR] + s, SegmentEnd(a, i);
      Parts(all, i) == [a[i..end]] + Parts(all, end + 1)
  {
    var all, end := a + [SEPARATOR] + s, SegmentEnd(a, i);
    SegmentEndBefore(a, s, i);
    assert all[i..end] == a[i..end];
  }

  /** Joined spellings have the segments of both. */
  lemma {:induction false} PartsOfJoined(a: string, s: string, i: nat)
    requires i <= |a|
    ensures Parts(a + [SEPARATOR] + s, i) == Parts(a, i) + Parts(s, 0)
    decreases |a| - i
  {
    if SegmentEnd(a, i) == |a| {
      PartsOfJoinedLast(a, s, i);
    } else {
      PartsOfJoined(a, s, SegmentEnd(a, i) + 1);
      PartsOfJoinedMore(a, s, i);
    }
  }

  lemma PartsOfJoinedMore(a: string, s: string, i: nat)
    requires i <= |a| && SegmentEnd(a, i) < |a|
    requires Parts(a + [SEPARATOR] + s, SegmentEnd(a, i) + 1) == Parts(a, SegmentEnd(a, i) + 1) + Parts(s, 0)
    ensures Parts(a + [SEPARATOR] + s, i) == Parts(a, i) + Parts(s, 0)
  {
    var end := SegmentEnd(a, i);
    PartsOfJoinedFirst(a, s, i);
    PartsFirst(a, i);
    InFront(a[i..end], Parts(a, end + 1), Parts(s, 0), Parts(a + [SEPARATOR] + s, end + 1));
  }

  lemma {:induction false} NoSeparatorNoEnd(s: string, i: nat)
    requires i <= |s| && SEPARATOR !in s
    ensures SegmentEnd(s, i) == |s|
    decreases |s| - i
  {
    if i < |s| {
      NoSeparatorNoEnd(s, i + 1);
    }
  }

  lemma {:induction false} PartsOfRendered(segments: seq<string>)
    requires segments != [] && NoSeparators(segments)
    ensures Parts(Render(segments), 0) == segments
  {
    var last := segments[|segments| - 1];
    NoSeparatorNoEnd(last, 0);
    assert last[0..] == last;
    if |segments| == 1 {
      assert segments == [last];
    } else {
      var front := segments[..|segments| - 1];
      PartsOfRendered(front);
      PartsOfJoined(Render(front), last, 0);
      assert segments == front + [last];
    }
  }

  // ----- Spelling out and reading again -----

  lemma {:induction false} DotsAreDots(n: nat)
    ensures |Dots(n)| == n && forall k | 0 <= k < n :: Dots(n)[k] == ".."
  {
    if n > 0 {
      DotsAreDots(n - 1);
    }
  }

  lemma {:induction false} FoldOfDots(n: nat)
    ensures Fold(false, NOWHERE, Dots(n)) == State(n, [])
  {
    if n > 0 {
      FoldOfDots(n - 1);
      FoldAppends(false, NOWHERE, Dots(n - 1), [".."]);
      assert [".."][1..] == [];
    }
  }

  lemma {:induction false} FoldOfNames(absolute: bool, st: State, names: seq<string>)
    requires forall k | 0 <= k < |names| :: IsPlain(names[k])
    ensures Fold(absolute, st, names) == State(st.ups, st.names + names)
    decreases |names|
  {
    if names == [] {
      assert st.names + names == st.names;
    } else {
      FoldOfNames(absolute, Step(absolute, st, names[0]), names[1..]);
      assert st.names + [names[0]] + names[1..] == st.names + names;
    }
  }

  lemma FoldOfSegments(absolute: bool, st: State)
    requires IsCanonical(absolute, st)
    ensures Fold(absolute, NOWHERE, Segments(st)) == st
  {
    FoldAppends(absolute, NOWHERE, Dots(st.ups), st.names);
    if !absolute {
      FoldOfDots(st.ups);
    }
    FoldOfNames(absolute, State(st.ups, []), st.names);
    assert [] + st.names == st.names;
  }

  lemma SegmentsAreClean(absolute: bool, st: State)
    requires IsCanonical(absolute, st)
    ensures NoSeparators(Segments(st)) && forall k | 0 <= k < |Segments(st)| :: Segments(st)[k] != ""
  {
    DotsAreDots(st.ups);
  }

  lemma {:induction false} RenderStart(segments: seq<string>)
    requires segments != [] && segments[0] != ""
    ensures Render(segments) != "" && Render(segments)[0] == segments[0][0]
  {
    if |segments| > 1 {
      RenderStart(segments[..|segments| - 1]);
    }
  }

  lemma EmptySpellLeads(absolute: bool)
    ensures IsAbsolute(Spell(absolute, NOWHERE)) == absolute && Target(Spell(absolute, NOWHERE)) == NOWHERE
  {
    assert Fold(absolute, NOWHERE, [""]) == NOWHERE && [""][1..] == [];
    assert Fold(absolute, NOWHERE, ["."]) == NOWHERE && ["."][1..] == [];
    if absolute {
      assert [SEPARATOR][1..] == "";
      assert Parts([SEPARATOR], 1) == [""];
    } else {
      NoSeparatorNoEnd(".", 0);
      assert "."[0..] == ".";
    }
  }

  /** A canonical spelling is absolute just when it says so, and leads where it should. */
  lemma SpellLeads(absolute: bool, st: State)
    requires IsCanonical(absolute, st)
    ensures IsAbsolute(Spell(absolute, st)) == absolute && Target(Spell(absolute, st)) == st
  {
    var segments := Segments(st);
    if segments == [] {
      DotsAreDots(st.ups);
      assert st == NOWHERE;
      EmptySpellLeads(absolute);
    } else {
      SegmentsAreClean(absolute, st);
      FoldOfSegments(absolute, st);
      PartsOfRendered(segments);
      RenderStart(segments);
      assert segments[0][0] in segments[0];
      if absolute {
        PartsAfter([SEPARATOR], Render(segments), 0);
      }
    }
  }

  // ----- The laws -----

  /** Normalizing a canonical path changes nothing. */
  lemma NormalIsIdempotent(s: string)
    ensures Normal(Normal(s)) == Normal(s)
  {
    TargetIsCanonical(s);
    SpellLeads(IsAbsolute(s), Target(s));
  }

  lemma TargetOfJoined(x: string, y: string)
    requires x != ""
    ensures IsAbsolute(x + [SEPARATOR] + y) == IsAbsolute(x)
    ensures Target(x + [SEPARATOR] + y) == Fold(IsAbsolute(x), Target(x), Parts(y, 0))
  {
    var i := if IsAbsolute(x) then 1 else 0;
    PartsOfJoined(x, y, i);
    FoldAppends(IsAbsolute(x), NOWHERE, Parts(x, i), Parts(y, 0));
  }

  lemma NormalIsNotEmpty(x: string)
    ensures Normal(x) != "" && IsAbsolute(Normal(x)) == IsAbsolute(x) && Target(Normal(x)) == Target(x)
  {
    TargetIsCanonical(x);
    SpellLeads(IsAbsolute(x), Target(x));
    if Segments(Target(x)) != [] {
      SegmentsAreClean(IsAbsolute(x), Target(x));
      RenderStart(Segments(Target(x)));
    }
  }

  /** Joins compose: it is the same to normalize on the way, unless the path is empty, which
      joins as if it were the root. */
  lemma JoinsCompose(x: string, y: string)
    ensures Join(Normal(x), y) == Join(x, y) <==> x != ""
  {
    NormalIsNotEmpty(x);
    TargetOfJoined(Normal(x), y);
    if x != "" {
      TargetOfJoined(x, y);
    } else {
      NormalIsNotEmpty(Normal(x) + [SEPARATOR] + y);
      NormalIsNotEmpty(x + [SEPARATOR] + y);
    }
  }

  // ----- Parents -----

  /** The place after the last separator among the first `n` characters, or zero. */
  function AfterLast(s: string, n: nat): (k: nat)
    requires n <= |s|
    ensures k <= n
  {
    if n == 0 || s[n - 1] == SEPARATOR then n else AfterLast(s, n - 1)
  }

  function Parent(s: string): string {
    var k := AfterLast(s, |s|);
    if k == 0 then "." else if k == 1 then [SEPARATOR] else s[..k - 1]
  }

  lemma {:induction false} AfterLastOf(p: string, name: string, n: nat)
    requires n <= |name| && SEPARATOR !in name && (p == "" || p[|p| - 1] == SEPARATOR)
    ensures AfterLast(p + name, |p| + n) == |p|
    decreases n
  {
    if n > 0 {
      assert (p + name)[|p| + n - 1] == name[n - 1] && name[n - 1] in name;
      AfterLastOf(p, name, n - 1);
    }
  }

  lemma RenderOneMore(segments: seq<string>, name: string)
    ensures Render(segments + [name]) == if segments == [] then name else Render(segments) + [SEPARATOR] + name
  {
    assert (segments + [name])[..|segments|] == segments;
  }

  /** What stands before the last name. */
  function Before(absolute: bool, segments: seq<string>): string {
    var r := if segments == [] then "" else Render(segments) + [SEPARATOR];
    if absolute then [SEPARATOR] + r else r
  }

  lemma JoinSpells(x: string, name: string)
    requires x != "" && IsPlain(name)
    ensures Join(x, name) == Before(IsAbsolute(x), Segments(Target(x))) + name
  {
    var absolute, st := IsAbsolute(x), Target(x);
    TargetOfJoined(x, name);
    NoSeparatorNoEnd(name, 0);
    assert name[0..] == name;
    assert Fold(absolute, st, [name]) == Step(absolute, st, name) by {
      assert [name][1..] == [];
    }
    assert Segments(Step(absolute, st, name)) == Segments(st) + [name];
    RenderOneMore(Segments(st), name);
    SpellOneMore(absolute, Segments(st), name);
  }

  lemma RegroupText(a: string, b: string, c: string)
    ensures a + (b + c) == a + b + c
  {
  }

  lemma SpellOneMore(absolute: bool, segments: seq<string>, name: string)
    ensures var r := Render(segments + [name]);
      (if absolute then [SEPARATOR] + r else r) == Before(absolute, segments) + name
  {
    RenderOneMore(segments, name);
    var r := if segments == [] then "" else Render(segments) + [SEPARATOR];
    assert Render(segments + [name]) == r + name;
    RegroupText([SEPARATOR], r, name);
  }

  lemma ParentOfSpelled(absolute: bool, st: State, name: string)
    requires IsCanonical(absolute, st) && SEPARATOR !in name
    ensures Parent(Before(absolute, Segments(st)) + name) == Spell(absolute, st)
  {
    var segments := Segments(st);
    var before := Before(absolute, segments);
    AfterLastOf(before, name, |name|);
    SegmentsAreClean(absolute, st);
    if segments != [] {
      RenderStart(segments);
      assert (before + name)[..|before| - 1] == if absolute then [SEPARATOR] + Render(segments) else Render(segments);
    }
  }

  /** The parent of a path with a plain name joined to it is the path. */
  lemma ParentUndoesJoin(x: string, name: string)
    requires x != "" && IsPlain(name)
    ensures Parent(Join(x, name)) == Normal(x)
  {
    TargetIsCanonical(x);
    JoinSpells(x, name);
    ParentOfSpelled(IsAbsolute(x), Target(x), name);
  }
}
