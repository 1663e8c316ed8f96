/** The built-in overlap check of the rule checker, as its test suite fixes
    it, with no rule definitions supplied: two placed programs conflict when
    their half-open time intervals overlap and their group lists share a
    group, unless the lists are identical and their block orders differ. */
module Checker {
  import opened Common

  /** A rule evaluation result; the rule evaluators themselves are not part
      of the model, so with no rules there are none. */
  datatype Violation = Violation(program: Option<Id>, msg: string, satisfied: bool)

  /** A structural problem: its presence is the problem. */
  datatype Problem = Problem(program: Option<Id>, msg: string)

  /** `{violations, other}`; `violations` lists the values of the result map
      in insertion order. */
  datatype Report = Report(violations: seq<Violation>, other: seq<Problem>)

  const OverlapMsg: string := "Více programů pro jednu skupinu"

  /** Half-open intervals `[begin, begin + duration)` intersect. */
  predicate TimeOverlaps(a: Program, b: Program)
    requires a.begin.Some? && b.begin.Some?
  {
    a.begin.value < b.begin.value + b.duration && b.begin.value < a.begin.value + a.duration
  }

  predicate SharesGroup(a: Program, b: Program)
  {
    exists g :: g in a.groups && g in b.groups
  }

  /** Deliberate stacking: identical group lists with different block orders
      (an absent block order counts as 0). */
  predicate Stacked(a: Program, b: Program)
  {
    a.groups == b.groups && BlockOrderOf(a) != BlockOrderOf(b)
  }

  predicate Conflict(a: Program, b: Program)
  {
    a.begin.Some? && b.begin.Some? && TimeOverlaps(a, b) && SharesGroup(a, b) && !Stacked(a, b)
  }

  /** Program `i` conflicts with a program at another position. */
  predicate ConflictsWithOther(ps: seq<Program>, i: int)
    requires 0 <= i < |ps|
  {
    exists j :: 0 <= j < |ps| && j != i && Conflict(ps[i], ps[j])
  }

  function Entry(p: Program): Problem
  {
    Problem(p.id, OverlapMsg)
  }

  /** The `other` entries for the programs from position `lo` on: one per
      program that conflicts with some other program, in input order. */
  function OverlapsFrom(ps: seq<Program>, lo: nat): seq<Problem>
    decreases |ps| - lo
  {
    if lo >= |ps| then []
    else (if ConflictsWithOther(ps, lo) then [Entry(ps[lo])] else []) + OverlapsFrom(ps, lo + 1)
  }

  /** `checkRules([], programs)`: no rule evaluations, and one overlap
      entry per conflicting program, in input order. */
  function CheckRules(ps: seq<Program>): (r: Report)
    ensures r.violations == []
    ensures |r.other| == |ConflictPositions(ps, 0)|
    ensures forall k :: 0 <= k < |ConflictPositions(ps, 0)| ==> r.other[k] == Entry(ps[ConflictPositions(ps, 0)[k]])
  {
    OverlapsExact(ps, 0);
    Report([], OverlapsFrom(ps, 0))
  }

  /** Conflict does not depend on the order of the pair. */
  lemma ConflictSymmetric(a: Program, b: Program)
    ensures Conflict(a, b) == Conflict(b, a)
  {
  }

  /** Every entry names a program that conflicts with another one. */
  lemma {:induction false} OverlapsSound(ps: seq<Program>, lo: nat, k: int)
    requires 0 <= k < |OverlapsFrom(ps, lo)|
    decreases |ps| - lo
    ensures exists i :: lo <= i < |ps| && ConflictsWithOther(ps, i) && OverlapsFrom(ps, lo)[k] == Entry(ps[i])
  {
    if ConflictsWithOther(ps, lo) {
      if k > 0 { OverlapsSound(ps, lo + 1, k - 1); }
    } else {
      OverlapsSound(ps, lo + 1, k);
    }
  }

  /** Every program that conflicts with another one has an entry. */
  lemma {:induction false} OverlapsComplete(ps: seq<Program>, lo: nat, i: int)
    requires lo <= i < |ps| && ConflictsWithOther(ps, i)
    decreases |ps| - lo
    ensures Entry(ps[i]) in OverlapsFrom(ps, lo)
  {
    if lo < i {
      OverlapsComplete(ps, lo + 1, i);
    }
  }

  /** Both programs of a conflicting pair are reported, the earlier one first. */
  lemma {:induction false} PairReportedInOrder(ps: seq<Program>, lo: nat, i: int, j: int)
    requires lo <= i < j < |ps| && Conflict(ps[i], ps[j])
    decreases |ps| - lo
    ensures exists k1, k2 :: 0 <= k1 < k2 < |OverlapsFrom(ps, lo)| &&
                             OverlapsFrom(ps, lo)[k1] == Entry(ps[i]) &&
                             OverlapsFrom(ps, lo)[k2] == Entry(ps[j])
  {
    var here := if ConflictsWithOther(ps, lo) then [Entry(ps[lo])] else [];
    var rest := OverlapsFrom(ps, lo + 1);
    assert OverlapsFrom(ps, lo) == here + rest;
    if lo == i {
      assert ConflictsWithOther(ps, i);
      ConflictSymmetric(ps[i], ps[j]);
      assert ConflictsWithOther(ps, j);
      OverlapsComplete(ps, lo + 1, j);
      var m :| 0 <= m < |rest| && rest[m] == Entry(ps[j]);
      assert OverlapsFrom(ps, lo)[0] == Entry(ps[i]);
      assert OverlapsFrom(ps, lo)[m + 1] == Entry(ps[j]);
    } else {
      PairReportedInOrder(ps, lo + 1, i, j);
      var k1, k2 :| 0 <= k1 < k2 < |rest| && rest[k1] == Entry(ps[i]) && rest[k2] == Entry(ps[j]);
      assert OverlapsFrom(ps, lo)[|here| + k1] == Entry(ps[i]);
      assert OverlapsFrom(ps, lo)[|here| + k2] == Entry(ps[j]);
    }
  }

  /** No more entries than programs. */
  lemma {:induction false} OverlapsBounded(ps: seq<Program>, lo: nat)
    requires lo <= |ps|
    decreases |ps| - lo
    ensures |OverlapsFrom(ps, lo)| <= |ps| - lo
  {
    if lo < |ps| {
      OverlapsBounded(ps, lo + 1);
    }
  }

  /** The positions, from `lo` on, of the programs that conflict with some
      other program: strictly increasing, exactly those positions. */
  function ConflictPositions(ps: seq<Program>, lo: nat): (idx: seq<nat>)
    decreases |ps| - lo
    ensures forall i, j :: 0 <= i < j < |idx| ==> idx[i] < idx[j]
    ensures forall k :: 0 <= k < |idx| ==> lo <= idx[k] < |ps| && ConflictsWithOther(ps, idx[k])
    ensures forall i :: lo <= i < |ps| && ConflictsWithOther(ps, i) ==> i in idx
  {
    if lo >= |ps| then []
    else (if ConflictsWithOther(ps, lo) then [lo] else []) + ConflictPositions(ps, lo + 1)
  }

  /** The entries are exactly one per conflicting program, in input order:
      the `k`-th entry belongs to the `k`-th conflicting position. */
  lemma {:induction false} OverlapsExact(ps: seq<Program>, lo: nat)
    decreases |ps| - lo
    ensures |OverlapsFrom(ps, lo)| == |ConflictPositions(ps, lo)|
    ensures forall k :: 0 <= k < |ConflictPositions(ps, lo)| ==>
              OverlapsFrom(ps, lo)[k] == Entry(ps[ConflictPositions(ps, lo)[k]])
  {
    if lo < |ps| {
      OverlapsExact(ps, lo + 1);
      var c := ConflictsWithOther(ps, lo);
      var rest, restAt := OverlapsFrom(ps, lo + 1), ConflictPositions(ps, lo + 1);
      assert forall k :: 0 <= k < |restAt| ==> restAt[k] < |ps| && rest[k] == Entry(ps[restAt[k]]);
      PrependEntry(ps, lo, c, rest, restAt, OverlapsFrom(ps, lo), ConflictPositions(ps, lo));
    }
  }

  /** The step of `OverlapsExact` on plain sequences: putting the entry and
      the position of program `lo` (when it conflicts) in front of both
      lists keeps them in step. */
  lemma PrependEntry(ps: seq<Program>, lo: nat, c: bool, rest: seq<Problem>, restAt: seq<nat>,
                     r: seq<Problem>, rAt: seq<nat>)
    requires lo < |ps| && |rest| == |restAt|
    requires forall k :: 0 <= k < |restAt| ==> restAt[k] < |ps| && rest[k] == Entry(ps[restAt[k]])
    requires r == (if c then [Entry(ps[lo])] else []) + rest
    requires rAt == (if c then [lo] else []) + restAt
    ensures |r| == |rAt|
    ensures forall k :: 0 <= k < |rAt| ==> rAt[k] < |ps| && r[k] == Entry(ps[rAt[k]])
  {
    if c {
      forall k | 1 <= k < |rAt| ensures rAt[k] < |ps| && r[k] == Entry(ps[rAt[k]]) {
        assert r[k] == rest[k - 1] && rAt[k] == restAt[k - 1];
      }
    }
  }

  /** For two programs the report is empty or names both, in input order. */
  lemma {:induction false} CheckTwo(a: Program, b: Program)
    ensures CheckRules([a, b]) ==
            Report([], if Conflict(a, b) then [Entry(a), Entry(b)] else [])
  {
    var ps := [a, b];
    ConflictSymmetric(a, b);
    assert ConflictsWithOther(ps, 0) == Conflict(a, b) by {
      if Conflict(a, b) { assert Conflict(ps[0], ps[1]); }
    }
    assert ConflictsWithOther(ps, 1) == Conflict(a, b) by {
      if Conflict(b, a) { assert Conflict(ps[1], ps[0]); }
    }
    assert OverlapsFrom(ps, 2) == [];
    assert OverlapsFrom(ps, 1) == (if Conflict(a, b) then [Entry(b)] else []);
    assert OverlapsFrom(ps, 0) == (if Conflict(a, b) then [Entry(a)] else []) + OverlapsFrom(ps, 1);
  }

  /** Back-to-back programs never conflict, whatever their groups. */
  lemma AdjacentNeverConflict(a: Program, b: Program)
    requires a.begin.Some? && b.begin.Some? && a.begin.value + a.duration == b.begin.value
    ensures !Conflict(a, b) && !Conflict(b, a)
  {
  }

  /** Programs without a common group never conflict, whatever their times. */
  lemma DisjointGroupsNeverConflict(a: Program, b: Program)
    requires forall g :: g in a.groups ==> g !in b.groups
    ensures !Conflict(a, b)
  {
  }

  // The cases of the checker's test suite.

  function Prog(id: Option<Id>, begin: int, duration: int, groups: seq<Id>, blockOrder: Option<int>): Program
  {
    Program(id, Some(begin), duration, groups, [], blockOrder, None, [], "", "", false)
  }

  lemma CheckEmpty()
    ensures CheckRules([]) == Report([], [])
  {
  }

  lemma {:induction false} CheckNonOverlappingTimes()
    ensures CheckRules([Prog(None, 0, 60, ["first"], None), Prog(None, 90, 60, ["first"], None)]) == Report([], [])
  {
    CheckTwo(Prog(None, 0, 60, ["first"], None), Prog(None, 90, 60, ["first"], None));
  }

  lemma {:induction false} CheckDifferentGroups()
    ensures CheckRules([Prog(None, 0, 60, ["first"], None), Prog(None, 0, 60, ["second"], None)]) == Report([], [])
  {
    var a, b := Prog(None, 0, 60, ["first"], None), Prog(None, 0, 60, ["second"], None);
    CheckTwo(a, b);
    DisjointGroupsNeverConflict(a, b);
  }

  lemma {:induction false} CheckOverlapEqualGroup()
    ensures var a, b := Prog(Some("progA"), 0, 60, ["first"], None), Prog(Some("progB"), 30, 60, ["first"], None);
            CheckRules([a, b]) == Report([], [Problem(Some("progA"), OverlapMsg), Problem(Some("progB"), OverlapMsg)])
  {
    var a, b := Prog(Some("progA"), 0, 60, ["first"], None), Prog(Some("progB"), 30, 60, ["first"], None);
    CheckTwo(a, b);
    assert "first" in a.groups && "first" in b.groups;
  }

  lemma {:induction false} CheckOverlapEqualGroupStacked()
    ensures CheckRules([Prog(None, 0, 60, ["first"], Some(0)), Prog(None, 30, 60, ["first"], Some(1))]) == Report([], [])
  {
    CheckTwo(Prog(None, 0, 60, ["first"], Some(0)), Prog(None, 30, 60, ["first"], Some(1)));
  }

  lemma {:induction false} CheckOverlapEqualGroups()
    ensures var a, b := Prog(Some("progA"), 0, 60, ["first", "second"], None),
                        Prog(Some("progB"), 30, 60, ["first", "second"], None);
            CheckRules([a, b]) == Report([], [Problem(Some("progA"), OverlapMsg), Problem(Some("progB"), OverlapMsg)])
  {
    var a, b := Prog(Some("progA"), 0, 60, ["first", "second"], None),
                Prog(Some("progB"), 30, 60, ["first", "second"], None);
    CheckTwo(a, b);
    assert "first" in a.groups && "first" in b.groups;
  }

  lemma {:induction false} CheckOverlapEqualGroupsStacked()
    ensures CheckRules([Prog(None, 0, 60, ["first", "second"], Some(0)),
                        Prog(None, 30, 60, ["first", "second"], Some(1))]) == Report([], [])
  {
    CheckTwo(Prog(None, 0, 60, ["first", "second"], Some(0)), Prog(None, 30, 60, ["first", "second"], Some(1)));
  }

  lemma {:induction false} CheckBackToBack()
    ensures CheckRules([Prog(None, 0, 60, ["first"], None), Prog(None, 60, 60, ["first"], None)]) == Report([], [])
  {
    var a, b := Prog(None, 0, 60, ["first"], None), Prog(None, 60, 60, ["first"], None);
    CheckTwo(a, b);
    AdjacentNeverConflict(a, b);
  }

  lemma {:induction false} CheckOverlapIntersectingGroups()
    ensures var a, b := Prog(Some("progA"), 0, 60, ["first", "second"], None),
                        Prog(Some("progB"), 30, 60, ["second", "third"], None);
            CheckRules([a, b]) == Report([], [Problem(Some("progA"), OverlapMsg), Problem(Some("progB"), OverlapMsg)])
  {
    var a, b := Prog(Some("progA"), 0, 60, ["first", "second"], None),
                Prog(Some("progB"), 30, 60, ["second", "third"], None);
    CheckTwo(a, b);
    assert "second" in a.groups && "second" in b.groups;
  }

  /** Different block orders do not excuse group lists that merely intersect. */
  lemma {:induction false} CheckOverlapIntersectingGroupsStacked()
    ensures var a, b := Prog(Some("progA"), 0, 60, ["first", "second"], Some(0)),
                        Prog(Some("progB"), 30, 60, ["second", "third"], Some(1));
            CheckRules([a, b]) == Report([], [Problem(Some("progA"), OverlapMsg), Problem(Some("progB"), OverlapMsg)])
  {
    var a, b := Prog(Some("progA"), 0, 60, ["first", "second"], Some(0)),
                Prog(Some("progB"), 30, 60, ["second", "third"], Some(1));
    CheckTwo(a, b);
    assert "second" in a.groups && "second" in b.groups;
    assert a.groups[0] != b.groups[0];
  }
}
