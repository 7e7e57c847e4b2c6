/** The path normaliser: one pass that builds the spelling in place, with a stack of where
    its names start. */
module PathNormalizer {
  import opened Options
  import opened Paths

  /** Each start is where the spelling ended before its name was added. */
  ghost predicate AreStarts(starts: seq<nat>, st: State) {
    && |starts| == |st.names|
    && forall k | 0 <= k < |starts| :: starts[k] == |Render(Dots(st.ups) + st.names[..k])|
  }

  lemma {:induction false} CleanRenderIsEmpty(segments: seq<string>)
    requires forall k | 0 <= k < |segments| :: segments[k] != ""
    ensures Render(segments) == "" <==> segments == []
  {
    if segments != [] {
      RenderStart(segments);
    }
  }

  /** Cutting the spelling off at the last start takes the last name away. */
  lemma CutTakesName(st: State)
    requires st.names != []
    ensures var front := st.names[..|st.names| - 1];
      && |Render(Dots(st.ups) + front)| <= |Render(Segments(st))|
      && Render(Segments(st))[..|Render(Dots(st.ups) + front)|] == Render(Dots(st.ups) + front)
  {
    var front, last := st.names[..|st.names| - 1], st.names[|st.names| - 1];
    assert Segments(st) == Dots(st.ups) + front + [last];
    RenderOneMore(Dots(st.ups) + front, last);
  }

  method NormalizeCanonical(path: string) returns (r: string)
    ensures r == Normal(path)
  {
    var absolute := path != "" && path[0] == SEPARATOR;
    var out := "";
    var starts: seq<nat> := [];
    var i := if absolute then 1 else 0;
    ghost var st := NOWHERE;
    while i <= |path|
      invariant i <= |path| + 1 && IsCanonical(absolute, st)
      invariant Target(path) == if i <= |path| then Fold(absolute, st, Parts(path, i)) else st
      invariant out == Render(Segments(st)) && AreStarts(starts, st)
    {
      var end := FindEnd(path, i);
      var part := path[i..end];
      NextPart(absolute, st, path, i);
      out, starts := Apply(absolute, out, starts, part, st);
      st := Step(absolute, st, part);
      i := end + 1;
    }
    SegmentsAreClean(absolute, st);
    CleanRenderIsEmpty(Segments(st));
    if absolute {
      return [SEPARATOR] + out;
    }
    return if out == "" then "." else out;
  }

  lemma NextPart(absolute: bool, st: State, path: string, i: nat)
    requires i <= |path| && IsCanonical(absolute, st)
    ensures var end := SegmentEnd(path, i);
      && Fold(absolute, st, Parts(path, i))
         == (if end < |path| then Fold(absolute, Step(absolute, st, path[i..end]), Parts(path, end + 1))
             else Step(absolute, st, path[i..end]))
      && IsCanonical(absolute, Step(absolute, st, path[i..end])) && SEPARATOR !in path[i..end]
  {
    var end := SegmentEnd(path, i);
    var part := path[i..end];
    assert path[i..] == part || end < |path|;
    assert [part][1..] == [];
    if end < |path| {
      assert ([part] + Parts(path, end + 1))[1..] == Parts(path, end + 1);
    }
  }

  method FindEnd(path: string, i: nat) returns (end: nat)
    requires i <= |path|
    ensures end == SegmentEnd(path, i)
  {
    end := i;
    while end < |path| && path[end] != SEPARATOR
      invariant i <= end <= |path| && SegmentEnd(path, i) == SegmentEnd(path, end)
    {
      end := end + 1;
    }
  }

  /** Takes one segment up into the spelling. */
  method Apply(absolute: bool, out: string, starts: seq<nat>, part: string, ghost st: State)
    returns (out': string, starts': seq<nat>)
    requires IsCanonical(absolute, st) && SEPARATOR !in part
    requires out == Render(Segments(st)) && AreStarts(starts, st)
    ensures out' == Render(Segments(Step(absolute, st, part))) && AreStarts(starts', Step(absolute, st, part))
  {
    if part == "" || part == "." {
      return out, starts;
    }
    if part == ".." {
      if starts != [] {
        OneNameLess(starts, st);
        return out[..starts[|starts| - 1]], starts[..|starts| - 1];
      }
      if absolute {
        return out, starts;
      }
      assert Segments(st) == Dots(st.ups);
      assert Segments(Step(absolute, st, part)) == Segments(st) + [".."];
      out' := Extend(absolute, out, part, st);
      return out', starts;
    }
    OneNameMore(starts, st, part);
    out' := Extend(absolute, out, part, st);
    starts' := starts + [|out|];
  }

  /** The spelling with one more segment at its end. */
  method Extend(absolute: bool, out: string, part: string, ghost st: State) returns (out': string)
    requires IsCanonical(absolute, st) && out == Render(Segments(st))
    ensures out' == Render(Segments(st) + [part])
  {
    SegmentsAreClean(absolute, st);
    CleanRenderIsEmpty(Segments(st));
    RenderOneMore(Segments(st), part);
    out' := out;
    if out' != "" {
      out' := out' + [SEPARATOR];
      out' := out' + part;
    } else {
      out' := part;
    }
  }

  lemma OneNameLess(starts: seq<nat>, st: State)
    requires AreStarts(starts, st) && starts != []
    ensures var front := State(st.ups, st.names[..|st.names| - 1]);
      && AreStarts(starts[..|starts| - 1], front)
      && starts[|starts| - 1] <= |Render(Segments(st))|
      && Render(Segments(st))[..starts[|starts| - 1]] == Render(Segments(front))
  {
    CutTakesName(st);
    var front := st.names[..|st.names| - 1];
    assert st.names[..|starts| - 1] == front;
    forall k | 0 <= k < |starts| - 1 ensures front[..k] == st.names[..k] {
    }
  }

  lemma OneNameMore(starts: seq<nat>, st: State, name: string)
    requires AreStarts(starts, st)
    ensures Segments(State(st.ups, st.names + [name])) == Segments(st) + [name]
    ensures AreStarts(starts + [|Render(Segments(st))|], State(st.ups, st.names + [name]))
  {
    var names := st.names + [name];
    assert names[..|starts|] == st.names;
    forall k | 0 <= k < |starts| ensures names[..k] == st.names[..k] {
    }
  }

  /** Fails only on what the system cannot represent. */
  method FromNative(path: string) returns (r: Option<string>)
    ensures r == if '\0' in path then None else Some(Normal(path))
  {
    if '\0' in path {
      return None;
    }
    var canonical := NormalizeCanonical(path);
    return Some(canonical);
  }

  method JoinPath(value: string, child: string) returns (r: string)
    ensures r == Join(value, child)
  {
    var out := value;
    out := out + [SEPARATOR];
    out := out + child;
    r := NormalizeCanonical(out);
  }
}
