/** The shulker round trip as a write-ahead protocol (src/bot/chest_io.rs). */
module RoundTrip {
  import opened Basics
  import opened Journal

  type BoxId = nat
  /** A shulker box lies in a chest slot, stands on the station, or is loose: on the cursor, carried, or dropped. */
  datatype Place = InChest(chest: int, slot: nat) | OnStation | Loose
  type Boxes = map<BoxId, Place>

  /** The world at an instant; `phase` is how far the current round trip physically got. `emptied` marks the instant
      after a write that left the journal's path empty. */
  datatype Snapshot = Snapshot(boxes: Boxes, disk: Option<Entry>, phase: nat, emptied: bool)

  ghost predicate Away(boxes: Boxes, home: Boxes, b: BoxId) { b in boxes && b in home && boxes[b] != home[b] }

  ghost predicate AllHome(boxes: Boxes, home: Boxes) { boxes == home }

  /** Every box has a home slot of its own. */
  ghost predicate Homes(home: Boxes) {
    && (forall b :: b in home ==> home[b].InChest?)
    && (forall a, b :: a in home && b in home && home[a] == home[b] ==> a == b)
  }

  ghost predicate Names(disk: Option<Entry>, place: Place) {
    disk.Some? && place == InChest(disk.value.chest, disk.value.slot)
  }

  /** At most one box is away; the journal on disk names its chest and slot, and is not ahead of where the box got,
      except that ShulkerTaken is written as an intent. */
  ghost predicate Good(s: Snapshot, home: Boxes) {
    && s.boxes.Keys == home.Keys
    && (forall a, b :: Away(s.boxes, home, a) && Away(s.boxes, home, b) ==> a == b)
    && (forall b :: Away(s.boxes, home, b) ==> Names(s.disk, home[b]) && !s.boxes[b].InChest? && 1 <= s.phase <= 4)
    && (s.disk.Some? && s.disk.value.state != ShulkerTaken ==> Rank(s.disk.value.state) <= s.phase)
  }

  /** Where the one box that is away can be, by phase. */
  ghost predicate Where(s: Snapshot, home: Boxes) {
    forall b :: Away(s.boxes, home, b) ==> (s.boxes[b] == OnStation <==> 2 <= s.phase <= 3)
  }

  /** Moving the one box of this operation's slot is safe. */
  lemma MoveIsGood(s: Snapshot, home: Boxes, b: BoxId, place: Place, phase: nat)
    requires Good(s, home) && Homes(home) && b in home && Names(s.disk, home[b])
    requires forall a :: Away(s.boxes, home, a) ==> a == b
    requires place == home[b] || !place.InChest?
    requires s.phase <= phase && (place == home[b] || 1 <= phase <= 4)
    ensures Good(Snapshot(s.boxes[b := place], s.disk, phase, false), home)
  {
  }

  ghost predicate AllGood(trace: seq<Snapshot>, home: Boxes) { forall k :: 0 <= k < |trace| ==> Good(trace[k], home) }

  /** No write left the path empty while a box was away. */
  ghost predicate NeverEmptiedAway(trace: seq<Snapshot>, home: Boxes) {
    forall k :: 0 <= k < |trace| && trace[k].emptied ==> AllHome(trace[k].boxes, home)
  }

  ghost predicate NeverEmptied(trace: seq<Snapshot>) { forall k :: 0 <= k < |trace| ==> !trace[k].emptied }

  lemma OneMoreInstant(trace: seq<Snapshot>, s: Snapshot, home: Boxes)
    ensures AllGood(trace + [s], home) <==> AllGood(trace, home) && Good(s, home)
    ensures NeverEmptiedAway(trace + [s], home) <==>
      NeverEmptiedAway(trace, home) && (s.emptied ==> AllHome(s.boxes, home))
    ensures NeverEmptied(trace + [s]) <==> NeverEmptied(trace) && !s.emptied
  {
    var t := trace + [s];
    assert t[|trace|] == s && forall k :: 0 <= k < |trace| ==> t[k] == trace[k];
  }

  /** Without a journal on disk an instant is good exactly when every box is home. */
  lemma EmptyIsGoodIff(s: Snapshot, home: Boxes, entry: Option<Entry>)
    requires Good(s.(disk := entry), home)
    ensures Good(s.(disk := None), home) <==> AllHome(s.boxes, home)
  {
    if s.boxes != home {
      var b :| b in home && s.boxes[b] != home[b];
      assert Away(s.boxes, home, b);
    }
  }

  predicate HasBox(home: Boxes, chest: int, slot: nat) { exists b :: b in home && home[b] == InChest(chest, slot) }

  /** The planned slots that have a box, in order. */
  function Boxed(home: Boxes, chest: int, plan: seq<nat>): seq<nat> {
    if plan == [] then []
    else
      var slot := plan[|plan| - 1];
      Boxed(home, chest, plan[..|plan| - 1]) + if HasBox(home, chest, slot) then [slot] else []
  }

  class World {
    const journal: Journal
    ghost const home: Boxes
    var boxes: Boxes
    var phase: nat
    var nextId: nat
    /** The world after every step. */
    ghost var trace: seq<Snapshot>
    /** How many steps have failed, a refused first write of the journal among them, and whose boxes were served. */
    ghost var setbacks: nat
    ghost var served: seq<nat>

    constructor (journal: Journal, boxes: Boxes)
      requires Homes(boxes) && journal.Valid() && journal.entry == None && !journal.lost
      ensures Valid() && AllHome(this.boxes, home) && this.journal == journal && this.boxes == boxes && trace == []
      ensures setbacks == 0 && served == []
    {
      this.journal, this.boxes, home := journal, boxes, boxes;
      phase, nextId, trace := 0, 0, [];
      setbacks, served := 0, [];
    }

    /** The world now, as a loader of the journal file would find it. */
    ghost function Now(): Snapshot reads this`boxes, this`phase, journal { Snapshot(boxes, journal.disk, phase, false) }

    /** The world now, with the journal that is in memory. */
    ghost function InMemory(): Snapshot reads this`boxes, this`phase, journal { Now().(disk := journal.entry) }

    /** The journal in memory is good now; the one on disk was good at every instant so far exactly if no write emptied
        its path while a box was away; and if none did, the path is empty now only with every box home. */
    ghost predicate Valid() reads this`boxes, this`phase, this`trace, journal {
      && Homes(home) && journal.Valid() && Good(InMemory(), home) && Where(InMemory(), home)
      && (AllGood(trace, home) <==> NeverEmptiedAway(trace, home))
      && (NeverEmptiedAway(trace, home) ==> (journal.lost ==> AllHome(boxes, home)))
      && ((forall n :: journal.fate(n) != Empties) ==> NeverEmptied(trace))
    }

    /** The journal names the slot of the operation under way, and only its box may be away. */
    ghost predicate Under(chest: int, slot: nat) reads this`boxes, journal {
      && Names(journal.entry, InChest(chest, slot))
      && forall b :: Away(boxes, home, b) ==> home[b] == InChest(chest, slot)
    }

    /** The journal file can be written throughout. */
    ghost predicate WritesWork() { forall n :: journal.fate(n) == Works }

    /** With a file that can be written, the journal is at one of these states. */
    ghost predicate KeptUp(states: set<State>) reads journal {
      WritesWork() ==> journal.entry.Some? && journal.entry.value.state in states
    }

    /** The instant after a write of the journal. */
    ghost function AfterWrite(write: nat): Snapshot
      reads this`boxes, this`phase, journal
    {
      Now().(emptied := journal.fate(write) == Empties)
    }

    /** A write keeps the world valid: it was good or its path is empty, and then it is good exactly with all boxes
        home. */
    lemma WriteIsRecorded(before: seq<Snapshot>, write: nat, wasLost: bool)
      requires Homes(home) && journal.Valid() && Good(InMemory(), home) && Where(InMemory(), home)
      requires AllGood(before, home) <==> NeverEmptiedAway(before, home)
      requires NeverEmptiedAway(before, home) ==> (wasLost ==> AllHome(boxes, home))
      requires (forall n :: journal.fate(n) != Empties) ==> NeverEmptied(before)
      requires journal.lost == match journal.fate(write) case Works => false case Keeps => wasLost case Empties => true
      requires trace == before + [AfterWrite(write)]
      ensures Valid()
    {
      OneMoreInstant(before, AfterWrite(write), home);
      EmptyIsGoodIff(Now(), home, journal.entry);
      assert Good(AfterWrite(write), home) <==> Good(Now(), home);
      assert !journal.lost ==> Now() == InMemory();
    }

    // ----- Journal calls -----

    method Begin(op: Op, chest: int, slot: nat) returns (r: Result)
      requires Valid() && AllHome(boxes, home)
      modifies this, journal
      ensures Valid() && boxes == old(boxes)
      ensures r.Ok? ==> Under(chest, slot) && phase == 0 && !journal.lost && journal.entry.value.state == ShulkerTaken
      ensures r.Ok? <==> journal.fate(old(journal.writes)) == Works
      ensures setbacks == old(setbacks) + (if r.Ok? then 0 else 1) && served == old(served)
    {
      r := journal.Begin(nextId, op, chest, slot);
      if r.Ok? { phase := 0; } else { setbacks := setbacks + 1; }
      nextId := nextId + 1;
      trace := trace + [AfterWrite(old(journal.writes))];
      WriteIsRecorded(old(trace), old(journal.writes), old(journal.lost));
    }

    /** The result of an advance is only logged. */
    method Advance(state: State, ghost chest: int, ghost slot: nat)
      requires Valid() && Under(chest, slot) && Rank(state) <= phase
      modifies this`trace, journal
      ensures Valid() && Under(chest, slot) && boxes == old(boxes) && phase == old(phase) && KeptUp({state})
    {
      var _ := journal.Advance(state);
      trace := trace + [AfterWrite(old(journal.writes))];
      WriteIsRecorded(old(trace), old(journal.writes), old(journal.lost));
    }

    method Complete()
      requires Valid() && AllHome(boxes, home)
      modifies this`trace, journal
      ensures Valid() && boxes == old(boxes) && (WritesWork() ==> journal.entry.None?)
    {
      var _ := journal.CompleteWithState(ShulkerReplaced);
      trace := trace + [AfterWrite(old(journal.writes))];
      WriteIsRecorded(old(trace), old(journal.writes), old(journal.lost));
    }

    // ----- Physical steps; each may fail -----

    /** Some box is there. */
    ghost predicate SomeBox(place: Place) reads this`boxes { exists b :: b in boxes && boxes[b] == place }

    /** A box of this chest slot, if it lies there. */
    method BoxAt(chest: int, slot: nat) returns (found: Option<BoxId>)
      ensures found.Some? ==> found.value in boxes && boxes[found.value] == InChest(chest, slot)
      ensures found.None? ==> forall b :: b in boxes ==> boxes[b] != InChest(chest, slot)
    {
      if b :| b in boxes && boxes[b] == InChest(chest, slot) {
        found := Some(b);
      } else {
        found := None;
      }
    }

    /** Moves the box of this operation's slot; away from home only with a journal on disk. */
    method Move(b: BoxId, place: Place, reached: nat, ghost chest: int, ghost slot: nat)
      requires Valid() && Under(chest, slot) && b in boxes && home[b] == InChest(chest, slot)
      requires place == home[b] || (!place.InChest? && (AllHome(boxes, home) ==> !journal.lost))
      requires phase <= reached && (place == home[b] || 1 <= reached <= 4)
      requires (place == OnStation <==> 2 <= reached <= 3)
      modifies this`boxes, this`phase, this`trace
      ensures Valid() && Under(chest, slot) && boxes == old(boxes)[b := place] && phase == reached
    {
      MoveIsGood(InMemory(), home, b, place, reached);
      boxes, phase := boxes[b := place], reached;
      trace := trace + [Now()];
      OneMoreInstant(old(trace), Now(), home);
      EmptyIsGoodIff(Now(), home, journal.entry);
      assert !journal.lost ==> Now() == InMemory();
    }

    /** Clicks the slot; the click may be lost. */
    method Take(chest: int, slot: nat)
      requires Valid() && Under(chest, slot) && AllHome(boxes, home) && phase == 0 && !journal.lost
      modifies this`boxes, this`phase, this`trace, this`setbacks
      ensures Valid() && Under(chest, slot) && phase <= 1 && forall b :: b in boxes ==> boxes[b] != OnStation
      ensures if SomeBox(Loose) then setbacks == old(setbacks) else
        setbacks > old(setbacks) || !HasBox(home, chest, slot)
    {
      var b := BoxAt(chest, slot);
      var received: bool := *;
      if !received {
        setbacks := setbacks + 1;
      } else if b.Some? {
        Move(b.value, Loose, 1, chest, slot);
      }
    }

    /** Gets a loose box into hand; there must be one for it to succeed. */
    method HoldBox() returns (b: Option<BoxId>)
      modifies this`setbacks
      ensures b.Some? ==> b.value in boxes && boxes[b.value] == Loose && setbacks == old(setbacks)
      ensures b.None? && SomeBox(Loose) ==> setbacks > old(setbacks)
      ensures setbacks >= old(setbacks)
    {
      var works: bool := *;
      b := None;
      if !works {
        setbacks := setbacks + 1;
      } else if c :| c in boxes && boxes[c] == Loose {
        b := Some(c);
      }
    }

    /** Places the held box on the station, at most three times over. The station is read as occupied only when it is,
        but a placement can go unseen. */
    method PlaceOnStation(b: BoxId, ghost chest: int, ghost slot: nat) returns (seen: bool, ghost tries: nat)
      requires Valid() && Under(chest, slot) && b in boxes && boxes[b] == Loose && phase == 1
      modifies this`boxes, this`phase, this`trace, this`setbacks
      ensures Valid() && Under(chest, slot)
      ensures seen ==> b in boxes && boxes[b] == OnStation && phase == 2
      ensures setbacks == old(setbacks) + (if seen then 0 else 1) && (!seen ==> tries == 3)
    {
      seen, tries := false, 0;
      for attempt := 0 to 3
        invariant Valid() && Under(chest, slot) && b in boxes
        invariant (boxes[b] == Loose && phase == 1) || (boxes[b] == OnStation && phase == 2)
        invariant setbacks == old(setbacks) && tries == attempt
      {
        tries := tries + 1;
        var lands: bool := *;
        if lands && boxes[b] == Loose { Move(b, OnStation, 2, chest, slot); }
        var shown: bool := *;
        if shown && boxes[b] == OnStation { return true, tries; }
      }
      setbacks := setbacks + 1;
    }

    /** Breaks the station block. Failing, it may leave the box where it stands or dropped. */
    method PickUp(ghost chest: int, ghost slot: nat) returns (ok: bool)
      requires Valid() && Under(chest, slot) && 2 <= phase <= 3 && SomeBox(OnStation)
      modifies this`boxes, this`phase, this`trace, this`setbacks
      ensures Valid() && Under(chest, slot)
      ensures ok ==> phase == 4 && SomeBox(Loose)
      ensures setbacks == old(setbacks) + if ok then 0 else 1
    {
      ok := *;
      var breaks: bool := *;
      if ok || breaks {
        var b :| b in boxes && boxes[b] == OnStation;
        Move(b, Loose, 4, chest, slot);
      }
      if !ok { setbacks := setbacks + 1; }
    }

    /** Puts a carried box into the slot; Ok is verified, but a failure may have come after the box landed. */
    method PlaceInChest(b: BoxId, chest: int, slot: nat) returns (ok: bool)
      requires Valid() && Under(chest, slot) && b in boxes && boxes[b] == Loose && phase == 4
      modifies this`boxes, this`phase, this`trace, this`setbacks
      ensures Valid() && Under(chest, slot)
      ensures ok ==> AllHome(boxes, home) && phase == 5
      ensures setbacks == old(setbacks) + if ok then 0 else 1
    {
      ok := *;
      var lands: bool := *;
      if ok || lands { Move(b, InChest(chest, slot), 5, chest, slot); }
      if !ok { setbacks := setbacks + 1; }
    }

    method Opens() returns (ok: bool)
      modifies this`setbacks
      ensures setbacks == old(setbacks) + if ok then 0 else 1
    {
      ok := *;
      if !ok { setbacks := setbacks + 1; }
    }

    // ----- The round trip -----

    /** From the chest slot onto the station, with the intent journalled first. It fails exactly when a step does, or
        there is no box. */
    method PlaceShulkerOnStation(op: Op, chest: int, slot: nat) returns (r: Result, ghost stood: bool)
      requires Valid() && AllHome(boxes, home)
      modifies this, journal
      ensures Valid()
      ensures r.Ok? ==> Under(chest, slot) && phase == 2 && KeptUp({ShulkerOnStation}) && SomeBox(OnStation)
      ensures served == old(served) && if r.Ok? then setbacks == old(setbacks) else
        setbacks > old(setbacks) || !HasBox(home, chest, slot)
      // A box that was placed but would not open is home again unless another step failed.
      ensures r.Ok? ==> stood
      ensures r.Err? && stood && setbacks == old(setbacks) + 1 ==>
        AllHome(boxes, home) && (WritesWork() ==> journal.entry.None?)
      ensures r.Err? && !AllHome(boxes, home) ==>
        Under(chest, slot) && KeptUp({ShulkerTaken, ShulkerOnStation, ShulkerPickedUp})
    {
      stood := false;
      r := Begin(op, chest, slot);
      if r.Err? { return; }
      var placed := TakeAndPlace(chest, slot);
      stood := placed;
      if !placed { return Err, stood; }
      r := OpenPlaced(chest, slot);
    }

    /** Journals that the box stands on the station, and opens it, or else tries to bring it home. */
    method OpenPlaced(chest: int, slot: nat) returns (r: Result)
      requires Valid() && Under(chest, slot) && phase == 2 && SomeBox(OnStation)
      modifies this, journal
      ensures Valid() && served == old(served)
      ensures r.Ok? ==> Under(chest, slot) && phase == 2 && KeptUp({ShulkerOnStation}) && SomeBox(OnStation)
      ensures if r.Ok? then setbacks == old(setbacks) else setbacks > old(setbacks)
      ensures r.Err? && setbacks == old(setbacks) + 1 ==>
        AllHome(boxes, home) && (WritesWork() ==> journal.entry.None?)
      ensures r.Err? && !AllHome(boxes, home) ==>
        Under(chest, slot) && KeptUp({ShulkerTaken, ShulkerOnStation, ShulkerPickedUp})
    {
      Advance(ShulkerOnStation, chest, slot);
      var opens := Opens();
      if !opens {
        RecoverStranded(chest, slot);
        return Err;
      }
      return Ok;
    }

    /** The physical half of it: takes the box out of its slot and places it, seen or not. */
    method TakeAndPlace(chest: int, slot: nat) returns (placed: bool)
      requires Valid() && Under(chest, slot) && AllHome(boxes, home) && phase == 0 && !journal.lost
      modifies this`boxes, this`phase, this`trace, this`setbacks
      ensures Valid() && Under(chest, slot) && (placed ==> phase == 2 && SomeBox(OnStation))
      ensures if placed then setbacks == old(setbacks) else setbacks > old(setbacks) || !HasBox(home, chest, slot)
    {
      Take(chest, slot);
      var held := HoldBox();
      if held.None? { return false; }
      assert Away(boxes, home, held.value);
      ghost var tries;
      placed, tries := PlaceOnStation(held.value, chest, slot);
    }

    /** The box was placed but would not open: tries to bring it home. */
    method RecoverStranded(chest: int, slot: nat)
      requires Valid() && Under(chest, slot) && phase == 2 && KeptUp({ShulkerOnStation}) && SomeBox(OnStation)
      modifies this, journal
      ensures Valid() && setbacks >= old(setbacks) && served == old(served)
      ensures setbacks == old(setbacks) ==> AllHome(boxes, home) && (WritesWork() ==> journal.entry.None?)
      ensures !AllHome(boxes, home) ==> Under(chest, slot) && KeptUp({ShulkerOnStation, ShulkerPickedUp})
    {
      var collected := CollectBox(chest, slot);
      if !collected { return; }
      var _ := ReturnBox(chest, slot, false);
    }

    /** Breaks the station block and journals that the box is carried. */
    method CollectBox(chest: int, slot: nat) returns (ok: bool)
      requires Valid() && Under(chest, slot) && 2 <= phase <= 3 && SomeBox(OnStation)
      modifies this`boxes, this`phase, this`trace, this`setbacks, journal
      ensures Valid() && Under(chest, slot) && setbacks == old(setbacks) + if ok then 0 else 1
      ensures if ok then phase == 4 && KeptUp({ShulkerPickedUp}) && SomeBox(Loose)
        else journal.entry == old(journal.entry)
    {
      ok := PickUp(chest, slot);
      if ok { Advance(ShulkerPickedUp, chest, slot); }
    }

    /** Opens the chest, puts the carried box into its slot, reopens the chest if asked, and completes the journal. */
    method ReturnBox(chest: int, slot: nat, reopen: bool) returns (r: Result)
      requires Valid() && Under(chest, slot) && phase == 4 && SomeBox(Loose)
      modifies this`boxes, this`phase, this`trace, this`setbacks, journal
      ensures Valid()
      ensures if r.Ok? then setbacks == old(setbacks) else setbacks > old(setbacks)
      ensures r.Ok? ==> AllHome(boxes, home) && (WritesWork() ==> journal.entry.None?)
      ensures r.Err? ==> Under(chest, slot) && journal.entry == old(journal.entry)
    {
      var opens := Opens();
      if !opens { return Err; }
      var b := HoldBox();
      if b.None? { return Err; }
      assert Away(boxes, home, b.value);
      var ok := PlaceInChest(b.value, chest, slot);
      if !ok { return Err; }
      if reopen {
        opens := Opens();
        if !opens { return Err; }
      }
      Complete();
      return Ok;
    }

    /** The transfer itself, while the box stands open. */
    method Transfer(ghost chest: int, ghost slot: nat) returns (ok: bool)
      requires Valid() && Under(chest, slot) && phase == 2
      modifies this`phase, this`trace, this`setbacks, this`served
      ensures Valid() && Under(chest, slot) && phase == if ok then 3 else 2
      ensures setbacks == old(setbacks) + (if ok then 0 else 1)
      ensures served == old(served) + if ok then [slot] else []
    {
      ok := *;
      if ok { phase, served := 3, served + [slot]; } else { setbacks := setbacks + 1; }
      trace := trace + [Now()];
      OneMoreInstant(old(trace), Now(), home);
      EmptyIsGoodIff(Now(), home, journal.entry);
      assert !journal.lost ==> Now() == InMemory();
    }

    /** From the station back into the chest slot. It fails exactly when a step does. */
    method FinishShulkerRoundTrip(chest: int, slot: nat, reopen: bool) returns (r: Result)
      requires Valid() && Under(chest, slot) && phase == 3 && SomeBox(OnStation)
      modifies this, journal
      ensures Valid() && served == old(served)
      ensures if r.Ok? then setbacks == old(setbacks) else setbacks > old(setbacks)
      ensures r.Ok? ==> AllHome(boxes, home) && (WritesWork() ==> journal.entry.None?)
      ensures r.Err? ==> KeptUp({ItemsTransferred, ShulkerPickedUp})
    {
      Advance(ItemsTransferred, chest, slot);
      var collected := CollectBox(chest, slot);
      if !collected { return Err; }
      r := ReturnBox(chest, slot, reopen);
    }

    /** One box of a scan, there and back. */
    method ServeBox(op: Op, chest: int, slot: nat, reopen: bool) returns (r: Result)
      requires Valid() && AllHome(boxes, home) && HasBox(home, chest, slot)
      modifies this, journal
      ensures Valid()
      ensures r.Ok? ==> AllHome(boxes, home) && (WritesWork() ==> journal.entry.None?)
      ensures r.Ok? ==> served == old(served) + [slot]
      ensures if r.Ok? then setbacks == old(setbacks) else setbacks > old(setbacks)
    {
      ghost var stood;
      r, stood := PlaceShulkerOnStation(op, chest, slot);
      if r.Err? { return; }
      var moved := Transfer(chest, slot);
      if !moved { return Err; }
      r := FinishShulkerRoundTrip(chest, slot, reopen);
    }

    /** A whole scan of a chest, in either direction, over any choice of slots: the first step that fails ends it, and
        otherwise every planned slot with a box is served, in order. The journal on disk was good at every instant
        exactly if no write emptied its path while a box was away. */
    method Scan(op: Op, chest: int, plan: seq<nat>) returns (r: Result)
      requires Valid() && AllHome(boxes, home)
      modifies this, journal
      ensures Valid()
      ensures AllGood(trace, home) <==> NeverEmptiedAway(trace, home)
      ensures (forall n :: journal.fate(n) != Empties) ==> AllGood(trace, home)
      ensures r.Ok? ==> AllHome(boxes, home) && (WritesWork() && old(journal.entry).None? ==> journal.entry.None?)
      ensures r.Ok? ==> served == old(served) + Boxed(home, chest, plan)
      ensures if r.Ok? then setbacks == old(setbacks) else setbacks > old(setbacks)
    {
      for i := 0 to |plan|
        invariant Valid() && AllHome(boxes, home) && (WritesWork() && old(journal.entry).None? ==> journal.entry.None?)
        invariant setbacks == old(setbacks) && served == old(served) + Boxed(home, chest, plan[..i])
      {
        assert plan[..i + 1][..i] == plan[..i];
        var b := BoxAt(chest, plan[i]);
        if b.Some? {
          r := ServeBox(op, chest, plan[i], i + 1 < |plan|);
          if r.Err? { return; }
        }
      }
      assert plan[..|plan|] == plan;
      return Ok;
    }
  }

  /** Beginning another operation over a box that an earlier scan left away keeps it named only for its own slot. */
  lemma BeginKeepsNamesIff(s: Snapshot, home: Boxes, b: BoxId, e: Entry)
    requires Good(s, home) && Away(s.boxes, home, b) && Homes(home) && e.state == ShulkerTaken
    ensures Good(s.(disk := Some(e)), home) <==> home[b] == InChest(e.chest, e.slot)
  {
  }
}
