/** Why it is enough to look for cycles at the declared types: in a built table only nominals
    can hold what comes after them, and of these only the ones that were filled in later. */
module CycleCheck {
  import opened Options
  import opened TypeTable
  import opened TypeEquality
  import opened ValueCycles

  ghost predicate Climbs(t: Table, i: nat) {
    exists j: nat :: j >= i && Holds(t, i, j)
  }

  predicate IsNominal(t: Table, i: nat)
    requires i < |t.types|
  {
    t.types[i].tag == Struct || t.types[i].tag == Enum
  }

  /** Arrays and tuples are made from types that are there already. */
  lemma OnlyNominalsClimb(t: Table, i: nat)
    requires IsBuilt(t) && IsType(t, i) && Climbs(t, i)
    ensures IsNominal(t, i)
  {
    assert Descends(t, i);
  }

  /** A walk that gets higher passes a type that climbs. */
  lemma {:induction false} HigherWalkClimbs(t: Table, w: Walk) returns (n: nat)
    requires InRange(t) && IsType(t, w.at) && IsWalk(t, true, w) && w.at < End(w)
    ensures IsType(t, n) && Climbs(t, n) && Reaches(t, true, n, End(w))
  {
    if Climbs(t, w.at) {
      n := w.at;
    } else {
      SharedIsType(t, w.at, w.rest.at);
      n := HigherWalkClimbs(t, w.rest);
    }
  }

  lemma {:induction false} WalkStaysInTable(t: Table, w: Walk)
    requires InRange(t) && IsType(t, w.at) && IsWalk(t, true, w)
    ensures IsType(t, End(w))
  {
    if w.Go? {
      SharedIsType(t, w.at, w.rest.at);
      WalkStaysInTable(t, w.rest);
    }
  }

  /** Every cycle passes a type that climbs. */
  lemma CyclesClimb(t: Table, i: nat) returns (n: nat)
    requires InRange(t) && IsType(t, i) && HoldsItself(t, i)
    ensures IsType(t, n) && Climbs(t, n) && ReachesCycle(t, n)
  {
    if Climbs(t, i) {
      ReachesSelf(t, true, i);
      n := i;
    } else {
      var j: nat :| Holds(t, i, j) && Reaches(t, true, j, i);
      SharedIsType(t, i, j);
      var w :| IsWalk(t, true, w) && w.at == j && End(w) == i;
      n := HigherWalkClimbs(t, w);
    }
  }

  /** Types with the same node hold the same types. */
  lemma SameNodeSameCycles(t: Table, m: nat, n: nat)
    requires m < |t.types| && n < |t.types| && t.types[m] == t.types[n] && ReachesCycle(t, n)
    ensures ReachesCycle(t, m)
  {
    assert forall j: nat :: Holds(t, m, j) <==> Holds(t, n, j);
    var i: nat :| Reaches(t, true, n, i) && HoldsItself(t, i);
    if n == i {
      var j: nat :| Holds(t, n, j) && Reaches(t, true, j, n);
      ReachesOn(t, true, m, j, n);
    } else {
      var j := FirstStep(t, true, n, i);
      ReachesOn(t, true, m, j, i);
    }
  }

  lemma {:induction false} NothingCyclic(t: Table, nominals: seq<Nominal>, n: Nominal)
    requires Cyclic(t, nominals) == [] && n in nominals && n.complete
    ensures !ReachesCycle(t, n.typeIdx)
  {
    if n != nominals[|nominals| - 1] {
      NothingCyclic(t, nominals[..|nominals| - 1], n);
    }
  }

  /** Is every type that climbs a completed declared one, or a copy of one?  Enums made for
      the built-in generic types need not be, nor what was reserved and never filled in. */
  ghost predicate Declares(t: Table, nominals: seq<Nominal>) {
    && (forall n <- nominals :: n.typeIdx < |t.types|)
    && forall i: nat | IsType(t, i) && Climbs(t, i) :: Declared(t, nominals, i)
  }

  ghost predicate Declared(t: Table, nominals: seq<Nominal>, i: nat)
    requires i < |t.types| && forall n <- nominals :: n.typeIdx < |t.types|
  {
    exists n <- nominals :: n.complete && t.types[n.typeIdx] == t.types[i]
  }

  /** When no declared type is reported, no type at all reaches a cycle, and whether a type is
      copied is defined for every one. */
  lemma NothingReportedNothingCyclic(t: Table, nominals: seq<Nominal>, root: nat)
    requires InRange(t) && Declares(t, nominals) && Cyclic(t, nominals) == [] && IsType(t, root)
    ensures !ReachesCycle(t, root) && !Repeats(t, [], root)
  {
    if ReachesCycle(t, root) {
      var i: nat :| Reaches(t, true, root, i) && HoldsItself(t, i);
      var w :| IsWalk(t, true, w) && w.at == root && End(w) == i;
      WalkStaysInTable(t, w);
      var n := CyclesClimb(t, i);
      assert Declared(t, nominals, n);
      var m :| m in nominals && m.complete && t.types[m.typeIdx] == t.types[n];
      SameNodeSameCycles(t, m.typeIdx, n);
      NothingCyclic(t, nominals, m);
      assert false;
    }
    RepeatsExactlyOnCycles(t, root);
  }

  // ----- What can climb -----

  /** An enum whose payloads all come before it, as those of the built-in generic types do. */
  lemma OlderPayloadsDoNotClimb(t: Table, i: nat)
    requires InRange(t) && IsType(t, i) && t.types[i].tag == Enum
    requires forall v: nat | InSpan(t.enums[t.types[i].data], v) :: LiesBelow(t.variants[v], i)
    ensures !Climbs(t, i)
  {
  }

  /** A nominal that is reserved and not filled in yet. */
  lemma EmptyDoesNotClimb(t: Table, i: nat)
    requires InRange(t) && IsType(t, i)
    requires if t.types[i].tag == Struct then t.structs[t.types[i].data].size == 0
             else t.types[i].tag == Enum && t.enums[t.types[i].data].size == 0
    ensures !Climbs(t, i)
  {
  }

  ghost predicate ClimbedBefore(s: Table, n: Node) {
    exists k: nat :: IsType(s, k) && s.types[k] == n && Climbs(s, k)
  }

  /** What climbs in `t` has a node that climbed in `s` already, or is the node `n`. */
  ghost predicate MayClimb(s: Table, t: Table, n: Option<Node>) {
    forall i: nat | IsType(t, i) && Climbs(t, i) :: n == Some(t.types[i]) || ClimbedBefore(s, t.types[i])
  }

  ghost predicate Appends(s: Table, t: Table) {
    && s.types <= t.types && |t.types| <= |s.types| + 1
    && s.structs <= t.structs && s.arrays <= t.arrays && s.enums <= t.enums
    && s.variants <= t.variants && s.refs <= t.refs && s.tuples <= t.tuples
  }

  /** What was there holds what it held. */
  lemma OldHoldsTheSame(s: Table, t: Table, i: nat, j: nat)
    requires InRange(s) && Appends(s, t) && IsType(s, i)
    ensures Holds(t, i, j) <==> Holds(s, i, j)
  {
    assert NodeInRange(s, s.types[i]) && t.types[i] == s.types[i];
    if s.types[i].tag == Enum {
      assert forall v: nat | InSpan(s.enums[s.types[i].data], v) :: v < |s.variants| && t.variants[v] == s.variants[v];
    }
  }

  lemma OldClimbsAsBefore(s: Table, t: Table, i: nat)
    requires InRange(s) && Appends(s, t) && IsType(s, i)
    ensures Climbs(t, i) <==> Climbs(s, i)
  {
    forall j: nat ensures Holds(t, i, j) <==> Holds(s, i, j) {
      OldHoldsTheSame(s, t, i, j);
    }
  }

  /** Appending makes nothing climb: a new node is a copy, or holds only what came before. */
  lemma AppendingMakesNothingClimb(s: Table, t: Table)
    requires IsBuilt(s) && IsBuilt(t) && Appends(s, t)
    requires |t.types| > |s.types| && IsNominal(t, |s.types|) && Climbs(t, |s.types|) ==>
      exists k: nat :: IsType(s, k) && s.types[k] == t.types[|s.types|]
    ensures MayClimb(s, t, None)
  {
    forall i: nat | IsType(t, i) && Climbs(t, i) ensures ClimbedBefore(s, t.types[i]) {
      if i < |s.types| {
        OldClimbsAsBefore(s, t, i);
      } else {
        OnlyNominalsClimb(t, i);
        var k: nat :| IsType(s, k) && s.types[k] == t.types[i];
        var j: nat :| j >= i && Holds(t, i, j);
        assert Holds(t, k, j);
        OldClimbsAsBefore(s, t, k);
      }
    }
  }

  /** The table with the fields, or the variants, of a nominal filled in. */
  ghost function Filled(s: Table, idx: nat, r: Range): Table
    requires InRange(s) && IsType(s, idx) && IsNominal(s, idx)
  {
    assert NodeInRange(s, s.types[idx]);
    if s.types[idx].tag == Struct then s.(structs := s.structs[s.types[idx].data := r])
    else s.(enums := s.enums[s.types[idx].data := r])
  }

  /** Filling a nominal in makes only that one climb, and its copies. */
  lemma FillingMakesOneClimb(s: Table, idx: nat, r: Range)
    requires InRange(s) && IsType(s, idx) && IsNominal(s, idx)
    ensures MayClimb(s, Filled(s, idx, r), Some(s.types[idx]))
  {
    var t := Filled(s, idx, r);
    forall i: nat | IsType(t, i) && Climbs(t, i) && t.types[i] != s.types[idx] ensures ClimbedBefore(s, t.types[i]) {
      var j: nat :| j >= i && Holds(t, i, j);
      assert NodeInRange(s, s.types[i]) && NodeInRange(s, s.types[idx]);
      assert Holds(s, i, j);
    }
  }

  // ----- The hypothesis holds of whatever is built -----

  /** Before anything is declared. */
  lemma NoNominalsNoneDeclared(t: Table)
    requires IsBuilt(t) && forall i: nat | IsType(t, i) :: !IsNominal(t, i)
    ensures Declares(t, [])
  {
    forall i: nat | IsType(t, i) && Climbs(t, i) ensures false {
      OnlyNominalsClimb(t, i);
    }
  }

  lemma DeclaresStays(s: Table, t: Table, nominals: seq<Nominal>)
    requires s.types <= t.types && MayClimb(s, t, None) && Declares(s, nominals)
    ensures Declares(t, nominals)
  {
    forall i: nat | IsType(t, i) && Climbs(t, i) ensures Declared(t, nominals, i) {
      var k: nat :| IsType(s, k) && s.types[k] == t.types[i] && Climbs(s, k);
      assert Declared(s, nominals, k);
    }
  }

  lemma DeclaresMore(t: Table, nominals: seq<Nominal>, n: Nominal)
    requires Declares(t, nominals) && n.typeIdx < |t.types|
    ensures Declares(t, nominals + [n])
  {
    forall i: nat | IsType(t, i) && Climbs(t, i) ensures Declared(t, nominals + [n], i) {
      assert Declared(t, nominals, i);
      var m :| m in nominals && m.complete && t.types[m.typeIdx] == t.types[i];
      assert m in nominals + [n];
    }
  }

  /** A nominal is complete once it has been filled in. */
  lemma DeclaresWhenFilled(s: Table, t: Table, nominals: seq<Nominal>, k: nat)
    requires k < |nominals| && Declares(s, nominals) && t.types == s.types
    requires MayClimb(s, t, Some(s.types[nominals[k].typeIdx]))
    ensures Declares(t, nominals[k := nominals[k].(complete := true)])
  {
    var filled := nominals[k := nominals[k].(complete := true)];
    assert filled[k] in filled;
    forall i: nat | IsType(t, i) && Climbs(t, i) ensures Declared(t, filled, i) {
      if t.types[i] != s.types[nominals[k].typeIdx] {
        var l: nat :| IsType(s, l) && s.types[l] == t.types[i] && Climbs(s, l);
        assert Declared(s, nominals, l);
        var m :| m in nominals && m.complete && s.types[m.typeIdx] == s.types[l];
        var p :| 0 <= p < |nominals| && nominals[p] == m;
        assert filled[p] in filled && filled[p].complete && filled[p].typeIdx == m.typeIdx;
      }
    }
  }
}
