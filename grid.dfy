/** The grid coordinate engine of the timetable: where a block, a program
    inside a block and the "now" marker sit on the day/time/group grid. */
module Grid {
  import opened Common

  /** A configured audience group; its position in `Settings.groups` is its row. */
  datatype Group = Group(id: Id, name: string)

  /** The derived timetable settings. `days` are start-of-day instants,
      `timeHeaders` offsets within a day, `timeSpan` the number of time steps
      under one header and `groupCnt` the number of rows per day. */
  datatype Settings = Settings(
    days: seq<int>,
    timeHeaders: seq<int>,
    timeStep: int,
    dayStart: int,
    dayEnd: int,
    timeSpan: nat,
    groupCnt: int,
    groups: seq<Group>)

  /** A rectangle in grid cells. */
  datatype Rect = Rect(x: int, y: int, width: int, height: int)

  /** The time indicator: one column, `height` rows from row `y`. */
  datatype IndicatorRect = IndicatorRect(x: int, y: int, height: int)

  /** `Math.ceil(a / b)` for integers and a positive divisor; it rounds up for
      negative `a` as well. */
  function CeilDiv(a: int, b: int): (r: int)
    requires b > 0
    ensures (r - 1) * b < a <= r * b
  {
    var q := (-a) / b;
    assert -a == q * b + (-a) % b;
    -q
  }

  /** Cancelling a positive factor on both sides of `<`. */
  lemma MulLess(x: int, y: int, b: int)
    requires b > 0 && x * b < y * b
    ensures x < y
  {
    assert (y - x) * b == y * b - x * b;
  }

  lemma CeilDivOfZero(b: int)
    requires b > 0
    ensures CeilDiv(0, b) == 0
  {
    var r := CeilDiv(0, b);
    MulLess(r - 1, 0, b);
    MulLess(-1, r, b);
  }

  /** Rounding up preserves order. */
  lemma CeilDivMonotone(a: int, c: int, b: int)
    requires b > 0 && a <= c
    ensures CeilDiv(a, b) <= CeilDiv(c, b)
  {
    MulLess(CeilDiv(a, b) - 1, CeilDiv(c, b), b);
  }

  /** `Array.prototype.indexOf`: the first position of `x` in `s`, or -1. */
  function IndexOf<T(==)>(s: seq<T>, x: T): (r: int)
    ensures r == -1 <==> x !in s
    ensures r != -1 ==> 0 <= r < |s| && s[r] == x && x !in s[..r]
  {
    if |s| == 0 then -1
    else if s[0] == x then 0
    else
      var k := IndexOf(s[1..], x);
      if k == -1 then -1
      else
        assert s[..k + 1] == [s[0]] + s[1..][..k];
        k + 1
  }

  /** `settings.groups.map(group => groups includes group._id)`. */
  function GroupMap(sg: seq<Group>, groups: seq<Id>): (m: seq<bool>)
    ensures |m| == |sg|
    ensures forall i :: 0 <= i < |sg| ==> (m[i] <==> sg[i].id in groups)
  {
    seq(|sg|, i requires 0 <= i < |sg| => sg[i].id in groups)
  }

  /** The fold `(acc, cur, idx) => cur && idx < acc ? idx : acc` run from
      position `i` with accumulator `acc`: the least matching position, unless
      `acc` is smaller. */
  function FirstFold(m: seq<bool>, i: nat, acc: int): (r: int)
    decreases |m| - i
    ensures r <= acc
    ensures r == acc || (i <= r < |m| && m[r])
    ensures forall j :: i <= j < |m| && m[j] ==> r <= j
  {
    if i >= |m| then acc
    else FirstFold(m, i + 1, if m[i] && i < acc then i else acc)
  }

  /** The fold `(acc, cur, idx) => cur && idx > acc ? idx : acc` run from
      position `i`: the greatest matching position, unless `acc` is larger. */
  function LastFold(m: seq<bool>, i: nat, acc: int): (r: int)
    decreases |m| - i
    ensures r >= acc
    ensures r == acc || (i <= r < |m| && m[r])
    ensures forall j :: i <= j < |m| && m[j] ==> r >= j
  {
    if i >= |m| then acc
    else LastFold(m, i + 1, if m[i] && i > acc then i else acc)
  }

  /** The first and last group rows a program touches: all rows when its
      group list is absent or empty, otherwise the two folds. */
  function RowRange(groups: Option<seq<Id>>, s: Settings): (int, int)
  {
    if groups.Some? && |groups.value| > 0 then
      var m := GroupMap(s.groups, groups.value);
      (FirstFold(m, 0, s.groupCnt - 1), LastFold(m, 0, 0))
    else (0, s.groupCnt - 1)
  }

  /** `getRect`: the grid rectangle of something that starts at `begin`,
      lasts `duration` and concerns `groups`. `onlyDate` and `onlyTime` stand
      for the date helpers that split an instant into its day and its time of
      day. Columns count whole time steps, rounded up. */
  function GetRect(begin: int, duration: int, groups: Option<seq<Id>>, s: Settings,
                   onlyDate: int -> int, onlyTime: int -> int): (r: Rect)
    requires s.timeStep > 0
    ensures (r.x - 1) * s.timeStep < onlyTime(begin) - s.dayStart <= r.x * s.timeStep
    ensures (r.width - 1) * s.timeStep < duration <= r.width * s.timeStep
  {
    var (first, last) := RowRange(groups, s);
    Rect(CeilDiv(onlyTime(begin) - s.dayStart, s.timeStep),
         IndexOf(s.days, onlyDate(begin)) * s.groupCnt + first,
         CeilDiv(duration, s.timeStep),
         last - first + 1)
  }

  /** Without a group list the rectangle covers every row of its day. */
  lemma RectWithoutGroups(begin: int, duration: int, groups: Option<seq<Id>>, s: Settings,
                          onlyDate: int -> int, onlyTime: int -> int)
    requires s.timeStep > 0
    requires groups.None? || groups.value == []
    ensures var r := GetRect(begin, duration, groups, s, onlyDate, onlyTime);
            r.y == IndexOf(s.days, onlyDate(begin)) * s.groupCnt && r.height == s.groupCnt
  {
  }

  /** Whether configured row `i` is one of the program's groups. */
  ghost predicate Touches(s: Settings, groups: seq<Id>, i: int)
  {
    0 <= i < |s.groups| && s.groups[i].id in groups
  }

  /** With a group list that names at least one configured group, the
      rectangle starts at the first row it touches and ends at the last one. */
  lemma {:induction false} RectOfMatchedGroups(begin: int, duration: int, groups: seq<Id>, s: Settings,
                                                onlyDate: int -> int, onlyTime: int -> int, k: int)
    requires s.timeStep > 0 && |s.groups| <= s.groupCnt
    requires Touches(s, groups, k)
    ensures var r := GetRect(begin, duration, Some(groups), s, onlyDate, onlyTime);
            var first := r.y - IndexOf(s.days, onlyDate(begin)) * s.groupCnt;
            var last := first + r.height - 1;
            && Touches(s, groups, first) && Touches(s, groups, last)
            && (forall j :: Touches(s, groups, j) ==> first <= j <= last)
            && r.height >= 1
  {
    var m := GroupMap(s.groups, groups);
    var first := FirstFold(m, 0, s.groupCnt - 1);
    var last := LastFold(m, 0, 0);
    assert m[k];
    if first == s.groupCnt - 1 {
      assert k == first by { assert first <= k && k < |s.groups| <= s.groupCnt; }
    }
    if last == 0 {
      assert k == 0 by { assert k <= last; }
    }
    assert Touches(s, groups, first) && Touches(s, groups, last);
    assert first <= k <= last;
  }

  /** A non-empty group list that names no configured group yields the fold
      seeds unchanged: rows from `groupCnt - 1` down to 0, a height of
      `2 - groupCnt`, which is not positive once there are two rows. */
  lemma {:induction false} RectOfUnknownGroups(begin: int, duration: int, groups: seq<Id>, s: Settings,
                                                onlyDate: int -> int, onlyTime: int -> int)
    requires s.timeStep > 0 && |groups| > 0
    requires forall i :: 0 <= i < |s.groups| ==> s.groups[i].id !in groups
    ensures var r := GetRect(begin, duration, Some(groups), s, onlyDate, onlyTime);
            r.y == IndexOf(s.days, onlyDate(begin)) * s.groupCnt + s.groupCnt - 1 && r.height == 2 - s.groupCnt
  {
    var m := GroupMap(s.groups, groups);
    assert forall j :: 0 <= j < |m| ==> !m[j];
    var first := FirstFold(m, 0, s.groupCnt - 1);
    var last := LastFold(m, 0, 0);
    assert first == s.groupCnt - 1;
    assert last == 0;
  }

  /** A zero duration is zero columns wide; a positive one at least one. */
  lemma RectWidth(begin: int, duration: int, groups: Option<seq<Id>>, s: Settings,
                  onlyDate: int -> int, onlyTime: int -> int)
    requires s.timeStep > 0 && duration >= 0
    ensures var r := GetRect(begin, duration, groups, s, onlyDate, onlyTime);
            (duration == 0 ==> r.width == 0) && (duration > 0 ==> r.width >= 1)
  {
    var r := GetRect(begin, duration, groups, s, onlyDate, onlyTime);
    if duration == 0 {
      CeilDivOfZero(s.timeStep);
    } else {
      MulLess(0, r.width, s.timeStep);
    }
  }

  /** `getProgram`'s placement of a program inside its block: the same
      columns, one row, shifted down by its block order. */
  function ProgramInBlock(p: Program, blockRect: Rect, s: Settings,
                          onlyDate: int -> int, onlyTime: int -> int): (r: Rect)
    requires s.timeStep > 0 && p.begin.Some?
    ensures var own := GetRect(p.begin.value, p.duration, Some(p.groups), s, onlyDate, onlyTime);
            && blockRect.x + r.x == own.x
            && blockRect.y + r.y == own.y + BlockOrderOf(p)
            && r.width == own.width
            && r.height == 1
  {
    var own := GetRect(p.begin.value, p.duration, Some(p.groups), s, onlyDate, onlyTime);
    Rect(own.x - blockRect.x, own.y - blockRect.y + BlockOrderOf(p), own.width, 1)
  }

  /** Programs with an absent or zero block order sit on the row of their
      first group inside the block. */
  lemma ProgramInBlockDefaultOrder(p: Program, blockRect: Rect, s: Settings,
                                   onlyDate: int -> int, onlyTime: int -> int)
    requires s.timeStep > 0 && p.begin.Some?
    requires p.blockOrder.None? || p.blockOrder == Some(0)
    ensures var own := GetRect(p.begin.value, p.duration, Some(p.groups), s, onlyDate, onlyTime);
            blockRect.y + ProgramInBlock(p, blockRect, s, onlyDate, onlyTime).y == own.y
  {
  }

  /** The viewer's offset from UTC, in minutes, moves the instant into the
      viewer's wall clock. */
  function ZoneAdjust(now: int, offsetMinutes: int): (r: int)
    ensures r + offsetMinutes * 60000 == now
    ensures offsetMinutes > 0 ==> r < now
    ensures offsetMinutes < 0 ==> r > now
  {
    now - offsetMinutes * 60 * 1000
  }

  /** `getTimeIndicatorRect`: the "now" marker, or `None` when the current
      time of day is outside the visible window or today is not shown. */
  function TimeIndicatorRect(s: Settings, now: int, offsetMinutes: int,
                             onlyDate: int -> int, onlyTime: int -> int): (r: Option<IndicatorRect>)
    requires s.timeStep > 0
    ensures var t := onlyTime(ZoneAdjust(now, offsetMinutes));
            var d := onlyDate(ZoneAdjust(now, offsetMinutes));
            r.None? <==> (t < s.dayStart || t > s.dayEnd || d !in s.days)
    ensures r.Some? ==>
            var t := onlyTime(ZoneAdjust(now, offsetMinutes));
            var d := onlyDate(ZoneAdjust(now, offsetMinutes));
            var i := IndexOf(s.days, d);
            && 0 <= i < |s.days| && s.days[i] == d
            && r.value.y == i * s.groupCnt
            && r.value.height == s.groupCnt
            && (r.value.x - 1) * s.timeStep < t - s.dayStart <= r.value.x * s.timeStep
            && 0 <= r.value.x <= CeilDiv(s.dayEnd - s.dayStart, s.timeStep)
  {
    var zoneAdjust := ZoneAdjust(now, offsetMinutes);
    var currTime := onlyTime(zoneAdjust);
    if currTime < s.dayStart || currTime > s.dayEnd then None
    else
      var currDate := onlyDate(zoneAdjust);
      if IndexOf(s.days, currDate) == -1 then None
      else
        var x := CeilDiv(currTime - s.dayStart, s.timeStep);
        CeilDivMonotone(currTime - s.dayStart, s.dayEnd - s.dayStart, s.timeStep);
        CeilDivMonotone(0, currTime - s.dayStart, s.timeStep);
        CeilDivOfZero(s.timeStep);
        Some(IndicatorRect(x, IndexOf(s.days, currDate) * s.groupCnt, s.groupCnt))
  }

  /** The group fix applied before blocks are formed: an empty group list
      stands for every configured group. */
  function WithAllGroups(p: Program, allGroups: seq<Id>): (r: Program)
    ensures r.(groups := p.groups) == p
    ensures |p.groups| > 0 ==> r.groups == p.groups
    ensures |p.groups| == 0 ==> r.groups == allGroups
  {
    p.(groups := if |p.groups| > 0 then p.groups else allGroups)
  }

  /** `getBlocks`'s preparation of the program list handed to block grouping:
      empty group lists are replaced by all configured group ids, and programs
      whose `begin` is not a number are left to the tray. */
  function ProgramsForBlocks(programs: seq<Program>, s: Settings): (r: seq<Program>)
    ensures |r| <= |programs|
    ensures forall q :: q in r ==> q.begin.Some? && (|q.groups| > 0 || |s.groups| == 0)
    ensures forall q :: q in r ==> exists p :: p in programs && q == WithAllGroups(p, AllGroupIds(s))
    ensures forall p :: p in programs && p.begin.Some? ==> WithAllGroups(p, AllGroupIds(s)) in r
  {
    if |programs| == 0 then []
    else
      var n := |programs| - 1;
      var p := programs[n];
      var rest := ProgramsForBlocks(programs[..n], s);
      assert programs == programs[..n] + [p];
      if p.begin.Some? then rest + [WithAllGroups(p, AllGroupIds(s))] else rest
  }

  /** The positions of the placed programs (those with a `begin`), in
      increasing order: exactly those positions, each once. */
  function PlacedPositions(programs: seq<Program>): (idx: seq<nat>)
    ensures forall i, j :: 0 <= i < j < |idx| ==> idx[i] < idx[j]
    ensures forall i :: 0 <= i < |idx| ==> idx[i] < |programs| && programs[idx[i]].begin.Some?
    ensures forall k :: 0 <= k < |programs| && programs[k].begin.Some? ==> k in idx
  {
    if |programs| == 0 then []
    else
      var n := |programs| - 1;
      var rest := PlacedPositions(programs[..n]);
      assert forall k :: 0 <= k < n ==> programs[..n][k] == programs[k];
      if programs[n].begin.Some? then rest + [n] else rest
  }

  lemma PreparationStep(programs: seq<Program>, s: Settings)
    requires |programs| > 0
    ensures var n := |programs| - 1;
            PlacedPositions(programs) ==
              if programs[n].begin.Some? then PlacedPositions(programs[..n]) + [n] else PlacedPositions(programs[..n])
    ensures var n := |programs| - 1;
            ProgramsForBlocks(programs, s) ==
              if programs[n].begin.Some? then ProgramsForBlocks(programs[..n], s) + [WithAllGroups(programs[n], AllGroupIds(s))]
              else ProgramsForBlocks(programs[..n], s)
  {
  }

  /** The prepared list is the placed programs in input order, each kept
      once: its `i`-th entry is the program at the `i`-th placed position. */
  lemma {:induction false} ProgramsForBlocksInOrder(programs: seq<Program>, s: Settings)
    ensures |ProgramsForBlocks(programs, s)| == |PlacedPositions(programs)|
    ensures forall i :: 0 <= i < |PlacedPositions(programs)| ==>
              ProgramsForBlocks(programs, s)[i] == WithAllGroups(programs[PlacedPositions(programs)[i]], AllGroupIds(s))
  {
    if |programs| > 0 {
      var n := |programs| - 1;
      var prefix := programs[..n];
      ProgramsForBlocksInOrder(prefix, s);
      var idx, r := PlacedPositions(programs), ProgramsForBlocks(programs, s);
      var idx', r' := PlacedPositions(prefix), ProgramsForBlocks(prefix, s);
      PreparationStep(programs, s);
      assert forall i :: 0 <= i < |idx'| ==> idx'[i] < n;
      assert forall i :: 0 <= i < |idx'| ==> r'[i] == WithAllGroups(programs[..n][idx'[i]], AllGroupIds(s));
      AppendPlaced(programs, s, idx', r', idx, r);
    }
  }

  /** The induction step of `ProgramsForBlocksInOrder`, on plain sequences:
      appending the last program (when placed) to both lists keeps them in
      step. */
  lemma AppendPlaced(programs: seq<Program>, s: Settings, idx': seq<nat>, r': seq<Program>, idx: seq<nat>, r: seq<Program>)
    requires |programs| > 0 && |r'| == |idx'|
    requires forall i :: 0 <= i < |idx'| ==> idx'[i] < |programs| - 1
    requires forall i :: 0 <= i < |idx'| ==>
               r'[i] == WithAllGroups(programs[..|programs| - 1][idx'[i]], AllGroupIds(s))
    requires var n := |programs| - 1;
             idx == if programs[n].begin.Some? then idx' + [n] else idx'
    requires var n := |programs| - 1;
             r == if programs[n].begin.Some? then r' + [WithAllGroups(programs[n], AllGroupIds(s))] else r'
    ensures |r| == |idx|
    ensures forall i :: 0 <= i < |idx| ==> idx[i] < |programs| && r[i] == WithAllGroups(programs[idx[i]], AllGroupIds(s))
  {
    var n := |programs| - 1;
    forall i | 0 <= i < |idx'| ensures r[i] == WithAllGroups(programs[idx[i]], AllGroupIds(s)) {
      assert r[i] == r'[i] && idx[i] == idx'[i];
      assert programs[..n][idx'[i]] == programs[idx'[i]];
    }
  }

  /** `settings.groups.map(g => g._id)`. */
  function AllGroupIds(s: Settings): (ids: seq<Id>)
    ensures |ids| == |s.groups|
    ensures forall i :: 0 <= i < |s.groups| ==> ids[i] == s.groups[i].id
  {
    seq(|s.groups|, i requires 0 <= i < |s.groups| => s.groups[i].id)
  }

  /** The group list the newer timetable computes its settings from: none
      until the groups have loaded. */
  function SettingsGroups(groupsLoaded: bool, groups: seq<Group>): (r: seq<Group>)
    ensures !groupsLoaded ==> r == []
    ensures groupsLoaded ==> r == groups
  {
    if groupsLoaded then groups else []
  }
}
