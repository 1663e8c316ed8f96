/** The empty cells of the timetable grid that accept a dragged program or a
    click to add one: one per day, time header, time step under the header and
    group row. */
module Droppables {
  import opened Common
  import opened Grid

  /** An addressable empty cell: the instant and group it stands for and its
      grid position. `groupId` is `None` on the single row used when no groups
      are configured. */
  datatype Droppable = Droppable(begin: int, groupId: Option<Id>, x: int, y: int)

  /** `xs.flatMap((_, k) => f(k))` over the positions `0 .. n - 1`. */
  function FlatMapIdx<T>(n: nat, f: nat -> seq<T>): seq<T>
  {
    if n == 0 then [] else FlatMapIdx(n - 1, f) + f(n - 1)
  }

  lemma {:induction false} FlatMapIdxLength<T>(n: nat, f: nat -> seq<T>, len: nat)
    requires forall k: nat :: k < n ==> |f(k)| == len
    ensures |FlatMapIdx(n, f)| == n * len
  {
    if n > 0 {
      FlatMapIdxLength(n - 1, f, len);
    }
  }

  /** When every piece has length `len`, element `j` of piece `i` sits at
      position `i * len + j` of the concatenation. */
  lemma {:induction false} FlatMapIdxAt<T>(n: nat, f: nat -> seq<T>, len: nat, i: nat, j: nat)
    requires forall k: nat :: k < n ==> |f(k)| == len
    requires i < n && j < len
    ensures |FlatMapIdx(n, f)| == n * len
    ensures 0 <= i * len + j < n * len
    ensures FlatMapIdx(n, f)[i * len + j] == f(i)[j]
  {
    FlatMapIdxLength(n, f, len);
    FlatMapIdxLength(n - 1, f, len);
    if i < n - 1 {
      FlatMapIdxAt(n - 1, f, len, i, j);
    } else {
      assert i * len == (n - 1) * len;
    }
  }

  /** The group rows: the configured groups in order, or a single row with
      no group when none are configured. */
  function RowIds(s: Settings): (rows: seq<Option<Id>>)
    ensures |s.groups| == 0 ==> rows == [None]
    ensures |s.groups| > 0 ==>
              |rows| == |s.groups| && forall g :: 0 <= g < |rows| ==> rows[g] == Some(s.groups[g].id)
  {
    if |s.groups| > 0 then seq(|s.groups|, g requires 0 <= g < |s.groups| => Some(s.groups[g].id))
    else [None]
  }

  /** The cells of one time step on one day, one per group row. */
  function StepCells(s: Settings, d: nat, t: nat, step: nat): seq<Droppable>
    requires d < |s.days| && t < |s.timeHeaders|
  {
    var rows := RowIds(s);
    var begin := s.days[d] + s.timeHeaders[t] + step * s.timeStep;
    seq(|rows|, g requires 0 <= g < |rows| =>
      Droppable(begin, rows[g], 3 + t * s.timeSpan + step, 2 + d * s.groupCnt + g))
  }

  /** The cells under one time header on one day. */
  function HeaderCells(s: Settings, d: nat, t: nat): seq<Droppable>
    requires d < |s.days|
  {
    FlatMapIdx(s.timeSpan, step => if t < |s.timeHeaders| then StepCells(s, d, t, step) else [])
  }

  /** The cells of one day. */
  function DayCells(s: Settings, d: nat): seq<Droppable>
  {
    FlatMapIdx(|s.timeHeaders|, t => if d < |s.days| then HeaderCells(s, d, t) else [])
  }

  /** `getDroppables`: every cell, days outermost, group rows innermost. */
  function AllDroppables(s: Settings): seq<Droppable>
  {
    FlatMapIdx(|s.days|, d => DayCells(s, d))
  }

  lemma HeaderCellsLength(s: Settings, d: nat, t: nat)
    requires d < |s.days| && t < |s.timeHeaders|
    ensures |HeaderCells(s, d, t)| == s.timeSpan * |RowIds(s)|
  {
    FlatMapIdxLength(s.timeSpan, step => if t < |s.timeHeaders| then StepCells(s, d, t, step) else [], |RowIds(s)|);
  }

  lemma DayCellsLength(s: Settings, d: nat)
    requires d < |s.days|
    ensures |DayCells(s, d)| == |s.timeHeaders| * (s.timeSpan * |RowIds(s)|)
  {
    forall t: nat | t < |s.timeHeaders|
      ensures |(if d < |s.days| then HeaderCells(s, d, t) else [])| == s.timeSpan * |RowIds(s)|
    {
      HeaderCellsLength(s, d, t);
    }
    FlatMapIdxLength(|s.timeHeaders|, t => if d < |s.days| then HeaderCells(s, d, t) else [],
                     s.timeSpan * |RowIds(s)|);
  }

  /** The cell of row `g` at step `step` under header `t`, inside that header. */
  lemma HeaderCellAt(s: Settings, d: nat, t: nat, step: nat, g: nat)
    requires d < |s.days| && t < |s.timeHeaders| && step < s.timeSpan && g < |RowIds(s)|
    ensures step * |RowIds(s)| + g < |HeaderCells(s, d, t)|
    ensures HeaderCells(s, d, t)[step * |RowIds(s)| + g] == StepCells(s, d, t, step)[g]
  {
    FlatMapIdxAt(s.timeSpan, step' => if t < |s.timeHeaders| then StepCells(s, d, t, step') else [],
                 |RowIds(s)|, step, g);
  }

  /** The same cell, inside its day. */
  lemma DayCellAt(s: Settings, d: nat, t: nat, step: nat, g: nat)
    requires d < |s.days| && t < |s.timeHeaders| && step < s.timeSpan && g < |RowIds(s)|
    ensures var SG := s.timeSpan * |RowIds(s)|;
            && t * SG + (step * |RowIds(s)| + g) < |DayCells(s, d)|
            && DayCells(s, d)[t * SG + (step * |RowIds(s)| + g)] == StepCells(s, d, t, step)[g]
  {
    var SG := s.timeSpan * |RowIds(s)|;
    HeaderCellAt(s, d, t, step, g);
    forall t': nat | t' < |s.timeHeaders|
      ensures |(if d < |s.days| then HeaderCells(s, d, t') else [])| == SG
    {
      HeaderCellsLength(s, d, t');
    }
    FlatMapIdxAt(|s.timeHeaders|, t' => if d < |s.days| then HeaderCells(s, d, t') else [],
                 SG, t, step * |RowIds(s)| + g);
  }

  /** The cell of row `g` within one time step. */
  lemma StepCellAt(s: Settings, d: nat, t: nat, step: nat, g: nat)
    requires d < |s.days| && t < |s.timeHeaders| && g < |RowIds(s)|
    ensures g < |StepCells(s, d, t, step)|
    ensures StepCells(s, d, t, step)[g] == Droppable(s.days[d] + s.timeHeaders[t] + step * s.timeStep,
                                                     RowIds(s)[g],
                                                     3 + t * s.timeSpan + step,
                                                     2 + d * s.groupCnt + g)
  {
  }

  /** Element `j` of day `d` sits at position `d * HSG + j` of all cells. */
  lemma AllDroppablesAt(s: Settings, d: nat, j: nat)
    requires d < |s.days| && j < |DayCells(s, d)|
    ensures var HSG := |s.timeHeaders| * (s.timeSpan * |RowIds(s)|);
            && |AllDroppables(s)| == |s.days| * HSG
            && 0 <= d * HSG + j < |AllDroppables(s)|
            && AllDroppables(s)[d * HSG + j] == DayCells(s, d)[j]
  {
    var HSG := |s.timeHeaders| * (s.timeSpan * |RowIds(s)|);
    DayCellsLength(s, d);
    forall d': nat | d' < |s.days| ensures |DayCells(s, d')| == HSG {
      DayCellsLength(s, d');
    }
    FlatMapIdxAt(|s.days|, d' => DayCells(s, d'), HSG, d, j);
  }

  /** There is exactly one cell per day, time header, step under the header
      and group row: the count multiplies out, and the cell for
      `(d, t, step, g)` sits at its mixed-radix position (days outermost,
      rows innermost) and carries the instant `day + header + step *
      timeStep`, the group of row `g`, column `3 + t * timeSpan + step` and
      row `2 + d * groupCnt + g`. */
  lemma {:induction false} DroppableAt(s: Settings, d: nat, t: nat, step: nat, g: nat)
    requires d < |s.days| && t < |s.timeHeaders| && step < s.timeSpan && g < |RowIds(s)|
    ensures var D, H, S, G := |s.days|, |s.timeHeaders|, s.timeSpan, |RowIds(s)|;
            var k := d * (H * (S * G)) + (t * (S * G) + (step * G + g));
            && |AllDroppables(s)| == D * (H * (S * G))
            && 0 <= k < |AllDroppables(s)|
            && AllDroppables(s)[k] == Droppable(s.days[d] + s.timeHeaders[t] + step * s.timeStep,
                                                RowIds(s)[g],
                                                3 + t * s.timeSpan + step,
                                                2 + d * s.groupCnt + g)
  {
    var S, G := s.timeSpan, |RowIds(s)|;
    var inDay := t * (S * G) + (step * G + g);
    DayCellAt(s, d, t, step, g);
    AllDroppablesAt(s, d, inDay);
    StepCellAt(s, d, t, step, g);
  }

  /** The newer timetable's settings before and after the groups load:
      until then there is the single drop row without a group and no program
      group matches a row, so every program falls back to the fold seeds of
      `getRect`; afterwards there is one drop row per loaded group, in
      order. */
  lemma SettingsGroupsRows(groupsLoaded: bool, groups: seq<Group>, s: Settings)
    requires s.groups == SettingsGroups(groupsLoaded, groups)
    ensures !groupsLoaded ==> RowIds(s) == [None] && forall ids :: GroupMap(s.groups, ids) == []
    ensures groupsLoaded && |groups| > 0 ==>
              |RowIds(s)| == |groups| && forall g :: 0 <= g < |groups| ==> RowIds(s)[g] == Some(groups[g].id)
    ensures groupsLoaded && |groups| == 0 ==> RowIds(s) == [None]
  {
  }
}
