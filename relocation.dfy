/** Dropping a program onto an empty cell: the program record proposed for
    the write-back. The write itself (a client update or a dispatched
    command) is outside the model. */
module Relocation {
  import opened Common

  /** `currentPrograms.find(program => program._id === item.id)`. */
  function FindById(programs: seq<Program>, itemId: Option<Id>): (r: Option<Program>)
    ensures r.None? <==> forall i :: 0 <= i < |programs| ==> programs[i].id != itemId
    ensures r.Some? ==> exists i :: 0 <= i < |programs| && programs[i] == r.value &&
                          r.value.id == itemId && forall j :: 0 <= j < i ==> programs[j].id != itemId
  {
    if |programs| == 0 then None
    else if programs[0].id == itemId then Some(programs[0])
    else
      var r := FindById(programs[1..], itemId);
      assert r.Some? ==>
        exists i :: 0 < i < |programs| && programs[i] == r.value && r.value.id == itemId &&
                    forall j :: 0 <= j < i ==> programs[j].id != itemId
      by {
        if r.Some? {
          var i :| 0 <= i < |programs[1..]| && programs[1..][i] == r.value &&
                   forall j :: 0 <= j < i ==> programs[1..][j].id != itemId;
          assert programs[i + 1] == r.value;
          forall j | 0 <= j < i + 1 ensures programs[j].id != itemId {
            if j > 0 { assert programs[j] == programs[1..][j - 1]; }
          }
        }
      }
      r
  }

  /** JavaScript's `!groupId`: the target cell has no group (`null`) or an
      empty id. */
  predicate NoTarget(groupId: Option<Id>)
  {
    groupId.None? || groupId.value == ""
  }

  /** `{...prog, begin, groups}`: the program moved to `begin`; its groups are
      kept when the cell has no group or is one of its own groups, and
      otherwise collapse to the cell's group alone. Nothing else changes. */
  function Relocate(prog: Program, begin: int, groupId: Option<Id>): (r: Program)
    ensures r.(begin := prog.begin, groups := prog.groups) == prog
    ensures r.begin == Some(begin)
    ensures NoTarget(groupId) ==> r.groups == prog.groups
    ensures !NoTarget(groupId) && groupId.value in prog.groups ==> r.groups == prog.groups
    ensures !NoTarget(groupId) && groupId.value !in prog.groups ==> r.groups == [groupId.value]
  {
    var groups := if NoTarget(groupId) || groupId.value in prog.groups then prog.groups else [groupId.value];
    prog.(begin := Some(begin), groups := groups)
  }

  /** After a drop onto a cell with a group, the program belongs to that
      group, and it belongs to no group it did not have before other than
      that one. */
  lemma RelocateTargetIsMember(prog: Program, begin: int, groupId: Option<Id>)
    requires !NoTarget(groupId)
    ensures groupId.value in Relocate(prog, begin, groupId).groups
    ensures forall g :: g in Relocate(prog, begin, groupId).groups ==> g in prog.groups || g == groupId.value
  {
  }

  /** Dropping the proposed program onto the same cell again proposes the
      same program. */
  lemma {:induction false} RelocateIdempotent(prog: Program, begin: int, groupId: Option<Id>)
    ensures Relocate(Relocate(prog, begin, groupId), begin, groupId) == Relocate(prog, begin, groupId)
  {
    if !NoTarget(groupId) {
      RelocateTargetIsMember(prog, begin, groupId);
    }
  }

  /** `onDroppableDrop`: the record handed to the write-back, or `None` when
      no current program carries the dragged item's id. */
  function OnDroppableDrop(itemId: Option<Id>, begin: int, groupId: Option<Id>,
                           currentPrograms: seq<Program>): (r: Option<Program>)
    ensures r.None? <==> forall i :: 0 <= i < |currentPrograms| ==> currentPrograms[i].id != itemId
    ensures r.Some? ==> exists i :: 0 <= i < |currentPrograms| && currentPrograms[i].id == itemId &&
                          (forall j :: 0 <= j < i ==> currentPrograms[j].id != itemId) &&
                          r.value == Relocate(currentPrograms[i], begin, groupId)
  {
    match FindById(currentPrograms, itemId)
    case None => None
    case Some(prog) => Some(Relocate(prog, begin, groupId))
  }
}
