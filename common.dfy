/** Shared vocabulary of the scheduler: identifiers, optional values and the
    program record that every component reads. */
module Common {

  /** An absent JavaScript value (`null`/`undefined`) or a present one. */
  datatype Option<+T> = None | Some(value: T)

  /** Document identifiers (`_id`) are strings. */
  type Id = string

  /** An entry of a program's `people` list: a legacy free-text name, or a
      reference `{person: id}` to a person record. */
  datatype Person = Named(name: string) | Ref(person: Id)

  /** A schedule item. `begin` is `None` when it is absent or not a number
      (the program then sits in the tray); `blockOrder` is `None` when absent.
      `ranges` holds the entries of the `ranges` object in insertion order.
      `title`, `table` and `locked` stand for the fields the core copies
      without reading them. */
  datatype Program = Program(
    id: Option<Id>,
    begin: Option<int>,
    duration: int,
    groups: seq<Id>,
    people: seq<Person>,
    blockOrder: Option<int>,
    pkg: Option<Id>,
    ranges: seq<(Id, int)>,
    title: string,
    table: string,
    locked: bool)

  /** `prog.blockOrder ? prog.blockOrder : 0`: an absent block order reads as 0. */
  function BlockOrderOf(p: Program): int
  {
    if p.blockOrder.Some? then p.blockOrder.value else 0
  }
}
