/** The journal of shulker operations (src/store/journal.rs). */
module Journal {
  import opened Basics

  datatype Op = WithdrawFromChest | DepositToChest
  datatype State = ShulkerTaken | ShulkerOnStation | ItemsTransferred | ShulkerPickedUp | ShulkerReplaced
  datatype Entry = Entry(id: nat, op: Op, chest: int, slot: nat, state: State)
  datatype Result = Ok | Err

  /** How far along the round trip a state says the box is. */
  function Rank(s: State): nat {
    match s
    case ShulkerTaken => 1
    case ShulkerOnStation => 2
    case ItemsTransferred => 3
    case ShulkerPickedUp => 4
    case ShulkerReplaced => 5
  }

  /** What becomes of a write of the journal file. A failed one leaves the old content in place, or leaves the path
      empty: the old content is then beside it, where the loader does not look. */
  datatype Fate = Works | Keeps | Empties

  class Journal {
    var entry: Option<Entry>
    /** What loading the journal file would find. */
    var disk: Option<Entry>
    var writes: nat
    const fate: nat -> Fate
    /** The path was emptied and has not been written since. */
    ghost var lost: bool

    ghost predicate Valid() reads this { disk == if lost then None else entry }

    constructor (fate: nat -> Fate)
      ensures Valid() && entry == None && !lost && writes == 0 && this.fate == fate
    {
      entry, disk, writes, lost, this.fate := None, None, 0, false, fate;
    }

    method Persist() returns (r: Result)
      modifies this`disk, this`writes, this`lost
      ensures writes == old(writes) + 1 && (r.Ok? <==> fate(old(writes)) == Works)
      ensures disk == match fate(old(writes)) case Works => entry case Keeps => old(disk) case Empties => None
      ensures lost == match fate(old(writes)) case Works => false case Keeps => old(lost) case Empties => true
    {
      var f := fate(writes);
      r := if f == Works then Ok else Err;
      if f == Works {
        disk, lost := entry, false;
      } else if f == Empties {
        disk, lost := None, true;
      }
      writes := writes + 1;
    }

    /** What one write did to the file, whatever became of it. */
    twostate predicate Written(r: Result)
      reads this
    {
      && Valid() && writes == old(writes) + 1 && (r.Ok? <==> fate(old(writes)) == Works)
      && lost == match fate(old(writes)) case Works => false case Keeps => old(lost) case Empties => true
    }

    /** Names a new operation in memory and on disk, or keeps the old entry in memory. An earlier entry is
        overwritten. */
    method Begin(id: nat, op: Op, chest: int, slot: nat) returns (r: Result)
      requires Valid()
      modifies this
      ensures Written(r)
      ensures entry == if r.Ok? then Some(Entry(id, op, chest, slot, ShulkerTaken)) else old(entry)
    {
      var oldEntry := entry;
      entry := Some(Entry(id, op, chest, slot, ShulkerTaken));
      r := Persist();
      if r.Err? { entry := oldEntry; }
    }

    method Advance(state: State) returns (r: Result)
      requires Valid()
      modifies this
      ensures if old(entry).Some? then Written(r) else Valid() && r.Ok? && writes == old(writes) && lost == old(lost)
      ensures entry == if r.Ok? && old(entry).Some? then Some(old(entry).value.(state := state)) else old(entry)
    {
      if entry.None? { return Ok; }
      var oldState := entry.value.state;
      entry := Some(entry.value.(state := state));
      r := Persist();
      if r.Err? { entry := Some(entry.value.(state := oldState)); }
    }

    /** Clears the journal in one write: the final state itself never reaches the disk. */
    method CompleteWithState(state: State) returns (r: Result)
      requires Valid()
      modifies this
      ensures Written(r)
      ensures entry == if r.Ok? then None else old(entry)
    {
      var priorEntry := entry;
      if entry.Some? { entry := Some(entry.value.(state := state)); }
      var oldEntry := entry;
      entry := None;
      r := Persist();
      if r.Err? {
        entry := oldEntry;
        if entry.Some? && priorEntry.Some? { entry := Some(entry.value.(state := priorEntry.value.state)); }
      }
    }
  }
}
