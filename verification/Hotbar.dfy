/** The bot's own inventory window (src/bot/inventory.rs): 0..9 crafting and armour, 9..36 the inventory rows,
    36..45 the hotbar, 45 the off hand. */
module Hotbar {
  import opened Basics
  import opened Container

  const WINDOW: nat := 46
  const HOTBAR_SLOT_0: nat := 36
  const ROWS := Range(9, 36)
  /** The rows, in the order a shift click on the hotbar fills them. */
  const ONTO_ROWS := seq(27, i => i + 9)

  datatype Error = Closed | NoEmptySlot | NotCleared | NotFound | NotMoved
  datatype Result = Ok | Err(error: Error)
  /** What becomes of a click: done, lost, or done while throwing the cursor's stack into the rows. */
  datatype Fate = Done | Lost | Displaced

  function FindEmptyInventorySlot(s: seq<Slot>, lo: nat): (r: Option<nat>)
    requires |s| >= 36
    ensures r.Some? ==> lo <= r.value < 36 && s[r.value].Empty?
    ensures r.None? ==> forall i :: lo <= i < 36 ==> s[i].Stack?
    decreases 36 - lo
  {
    if lo >= 36 then None else if s[lo].Empty? then Some(lo) else FindEmptyInventorySlot(s, lo + 1)
  }

  // ----- The hotbar emptied into the rows -----

  function Swapped(s: seq<Slot>, h: nat, e: nat): seq<Slot>
    requires h < |s| && e < |s|
  {
    s[h := s[e]][e := s[h]]
  }

  /** The window after hotbar slots 36..hi each moved to the first empty row slot, while there was one. */
  function HotbarMoved(s: seq<Slot>, hi: nat): (r: seq<Slot>)
    requires |s| == WINDOW && hi <= 45
    ensures |r| == WINDOW
  {
    if hi <= 36 then s
    else MovedOne(HotbarMoved(s, hi - 1), hi - 1)
  }

  function MovedOne(s: seq<Slot>, h: nat): (r: seq<Slot>)
    requires |s| == WINDOW && h < WINDOW
    ensures |r| == WINDOW
  {
    var e := FindEmptyInventorySlot(s, 9);
    if s[h].Stack? && e.Some? then Swapped(s, h, e.value) else s
  }

  lemma SwapKeepsMultiset(s: seq<Slot>, h: nat, e: nat)
    requires h < |s| && e < |s|
    ensures multiset(Swapped(s, h, e)) == multiset(s)
  {
  }

  predicate SomeRowEmpty(s: seq<Slot>)
    requires |s| >= 36
  {
    exists i :: 9 <= i < 36 && s[i].Empty?
  }

  /** The move is a permutation of the window's slots. */
  lemma {:induction false} HotbarMovedPermutes(s: seq<Slot>, hi: nat)
    requires |s| == WINDOW && hi <= 45
    ensures multiset(HotbarMoved(s, hi)) == multiset(s)
  {
    if hi > 36 {
      HotbarMovedPermutes(s, hi - 1);
      var t := HotbarMoved(s, hi - 1);
      var e := FindEmptyInventorySlot(t, 9);
      if t[hi - 1].Stack? && e.Some? { SwapKeepsMultiset(t, hi - 1, e.value); }
    }
  }

  /** What the window keeps when hotbar slots 36..hi move up: no stack outside them is altered, each of them either
      stays or lies in a formerly empty row slot, and one stays only when no row slot is empty. */
  ghost predicate MovedUp(s: seq<Slot>, s': seq<Slot>, hi: nat)
    requires hi <= 45
  {
    && |s| == |s'| == WINDOW
    && (forall i :: 0 <= i < WINDOW && !(36 <= i < hi) && s[i].Stack? ==> s'[i] == s[i])
    && (forall i :: 0 <= i < WINDOW && !(9 <= i < hi) ==> s'[i] == s[i])
    && (forall h :: 36 <= h < hi ==>
      s'[h] == s[h] || (s'[h].Empty? && exists e :: 9 <= e < 36 && s[e].Empty? && s'[e] == s[h]))
    && (SomeRowEmpty(s') ==> forall h :: 36 <= h < hi ==> s'[h].Empty?)
  }

  lemma {:induction false} HotbarMovedKeeps(s: seq<Slot>, hi: nat)
    requires |s| == WINDOW && 36 <= hi <= 45
    ensures MovedUp(s, HotbarMoved(s, hi), hi)
  {
    if hi > 36 {
      HotbarMovedKeeps(s, hi - 1);
      MoveOneUp(s, HotbarMoved(s, hi - 1), hi - 1);
    }
  }

  lemma MoveOneUp(s: seq<Slot>, t: seq<Slot>, h: nat)
    requires 36 <= h < 45 && MovedUp(s, t, h)
    ensures MovedUp(s, MovedOne(t, h), h + 1)
  {
    var e := FindEmptyInventorySlot(t, 9);
    if t[h].Stack? && e.Some? {
      KeptUnderSwap(s, t, h, e.value);
      assert SomeRowEmpty(t) by { assert t[e.value].Empty?; }
    }
  }

  lemma KeptUnderSwap(s: seq<Slot>, t: seq<Slot>, h: nat, e: nat)
    requires |s| == |t| == WINDOW && 36 <= h < 45 && 9 <= e < 36 && t[e].Empty? && t[h].Stack? && t[h] == s[h]
    requires forall i :: 9 <= i < 36 && s[i].Stack? ==> t[i] == s[i]
    requires forall g :: 36 <= g < h ==>
      t[g] == s[g] || (t[g].Empty? && exists f :: 9 <= f < 36 && s[f].Empty? && t[f] == s[g])
    ensures
      var s' := Swapped(t, h, e);
      forall g :: 36 <= g <= h ==>
        s'[g] == s[g] || (s'[g].Empty? && exists f :: 9 <= f < 36 && s[f].Empty? && s'[f] == s[g])
  {
    var s' := Swapped(t, h, e);
    assert s[e].Empty? && s'[e] == s[h];
    forall g | 36 <= g <= h && s'[g] != s[g]
      ensures s'[g].Empty? && exists f :: 9 <= f < 36 && s[f].Empty? && s'[f] == s[g]
    {
      if g < h {
        var f :| 9 <= f < 36 && s[f].Empty? && t[f] == s[g];
        assert f != e ==> s'[f] == s[g];
      }
    }
  }

  // ----- Clicks -----

  ghost predicate AllFit(s: seq<Slot>, cursor: Slot, sizes: Sizes) {
    && (forall i :: 0 <= i < |s| && s[i].Stack? ==> s[i].count <= sizes(s[i].kind))
    && (cursor.Stack? ==> cursor.count <= sizes(cursor.kind))
  }

  lemma RowsCover()
    ensures Ways(ONTO_ROWS, ROWS)
  {
    forall i: nat | 9 <= i < 36 ensures i in ONTO_ROWS { assert ONTO_ROWS[i - 9] == i; }
  }

  /** Stacks of other kinds than slot 36's stay, and it keeps its kind while it holds anything. */
  predicate OthersStay(s: seq<Slot>, s': seq<Slot>)
    requires |s| == |s'| == WINDOW && s[36].Stack?
  {
    && (forall i :: 0 <= i < WINDOW && s[i].Stack? && s[i].kind != s[36].kind ==> s'[i] == s[i])
    && (s'[36].Stack? ==> s'[36].kind == s[36].kind)
  }

  /** A shift click on slot 36 conserves everything, and empties it when a row slot is empty. */
  lemma ShiftOffHotbar(s: seq<Slot>, cursor: Slot, sizes: Sizes)
    requires |s| == WINDOW && AllFit(s, cursor, sizes) && s[36].Stack?
    ensures forall k :: 0 <= k < |ONTO_ROWS| ==> ONTO_ROWS[k] < |s|
    ensures
      var s' := ShiftClicked(s, 36, ONTO_ROWS, sizes(s[36].kind));
      && AllFit(s', cursor, sizes)
      && (forall kind :: Sum(s', CountOf(kind), 0, WINDOW) == Sum(s, CountOf(kind), 0, WINDOW))
      && (SomeRowEmpty(s) ==> s'[36].Empty?)
      && OthersStay(s, s')
  {
    RowsCover();
    var kind, size := s[36].kind, sizes(s[36].kind);
    var s' := ShiftClicked(s, 36, ONTO_ROWS, size);
    var n := ShiftMoves(s, 36, ONTO_ROWS, size, Range(36, 37), ROWS);
    forall other ensures Sum(s', CountOf(other), 0, WINDOW) == Sum(s, CountOf(other), 0, WINDOW) {
      MovedConserves(s, s', kind, n, Range(36, 37), ROWS, other);
    }
    assert GrewSlot(s'[36], s[36], kind);
    MovedConserves(s, s', kind, n, Range(36, 37), ROWS, kind);
    if SomeRowEmpty(s) {
      var i :| 9 <= i < 36 && s[i].Empty?;
      SumAtLeast(s, RoomFor(kind, size), 9, 36, i);
    }
  }

  /** Some stack of the kind is in the window or on the cursor exactly when its total is not zero. */
  lemma InTotalIff(s: seq<Slot>, cursor: Slot, kind: Kind)
    ensures Sum(s, CountOf(kind), 0, |s|) + CountIn(cursor, kind) > 0 <==>
      CountIn(cursor, kind) > 0 || exists i :: 0 <= i < |s| && CountIn(s[i], kind) > 0
  {
    SumNonNegative(s, CountOf(kind), 0, |s|);
    if i :| 0 <= i < |s| && CountIn(s[i], kind) > 0 {
      SumAtLeast(s, CountOf(kind), 0, |s|, i);
    } else {
      SumZero(s, CountOf(kind), 0, |s|);
    }
  }

  class Inventory {
    var slots: seq<Slot>
    var cursor: Slot
    var clicks: nat
    /** Whether the last look found the window open. */
    var open: bool
    /** How many clicks so far were not done as meant. */
    ghost var faults: nat
    const fate: nat -> Fate
    const sizes: Sizes
    const isShulker: Kind -> bool

    constructor (slots: seq<Slot>, cursor: Slot, fate: nat -> Fate, sizes: Sizes, isShulker: Kind -> bool)
      ensures this.slots == slots && this.cursor == cursor && this.fate == fate && this.sizes == sizes
      ensures this.isShulker == isShulker && clicks == 0 && faults == 0
    {
      this.slots, this.cursor, this.fate, this.sizes, this.isShulker := slots, cursor, fate, sizes, isShulker;
      clicks, open, faults := 0, true, 0;
    }

    ghost predicate Valid()
      reads this`slots, this`cursor
    {
      |slots| == WINDOW && AllFit(slots, cursor, sizes)
    }

    function Total(kind: Kind): int
      reads this`slots, this`cursor
    {
      Sum(slots, CountOf(kind), 0, |slots|) + CountIn(cursor, kind)
    }

    predicate IsShulker(slot: Slot) { slot.Stack? && isShulker(slot.kind) }

    predicate InSlot0() reads this`slots { |slots| == WINDOW && IsShulker(slots[36]) }

    /** A box in slot `from`, and none on the cursor or in slot 36. */
    predicate BoxToMove(from: nat)
      requires from < |slots| == WINDOW
      reads this`slots, this`cursor
    {
      !IsShulker(cursor) && IsShulker(slots[from]) && !IsShulker(slots[36])
    }

    /** Looks at the window, which may be open or not. */
    method StillOpen() returns (yes: bool)
      modifies this`open
      ensures yes == open
    {
      open := *;
      yes := open;
    }

    method LeftClick(i: nat)
      requires Valid() && i < WINDOW
      modifies this`slots, this`cursor, this`clicks, this`faults
      ensures Valid() && forall kind :: Total(kind) == old(Total(kind))
      ensures clicks == old(clicks) + 1 && faults == old(faults) + if fate(old(clicks)) == Done then 0 else 1
      ensures faults == old(faults) ==>
        var (a, b) := LeftClicked(old(slots[i]), old(cursor), sizes); slots == old(slots)[i := a] && cursor == b
    {
      if fate(clicks) != Lost {
        var (a, b) := LeftClicked(slots[i], cursor, sizes);
        ghost var s := slots;
        slots, cursor := slots[i := a], b;
        forall kind ensures Total(kind) == old(Total(kind)) {
          SumUpdate(s, CountOf(kind), 0, |s|, i, a);
          ClicksConserve(s[i], old(cursor), sizes, kind);
        }
      }
      if fate(clicks) != Done { faults := faults + 1; }
      clicks := clicks + 1;
    }

    method ShiftClickSlot0()
      requires Valid() && slots[36].Stack?
      modifies this`slots, this`cursor, this`clicks, this`faults
      ensures Valid() && forall kind :: Total(kind) == old(Total(kind))
      ensures old(faults) <= faults && clicks <= old(clicks) + 2
      ensures (faults > old(faults)) == (fate(old(clicks)) != Done)
      ensures fate(old(clicks)) != Displaced ==> cursor == old(cursor)
      ensures faults == old(faults) ==>
        cursor == old(cursor) && (SomeRowEmpty(old(slots)) ==> slots[36].Empty?) && OthersStay(old(slots), slots)
    {
      var f := fate(clicks);
      if f != Lost {
        ShiftOffHotbar(slots, cursor, sizes);
        slots := ShiftClicked(slots, 36, ONTO_ROWS, sizes(slots[36].kind));
      }
      if f != Done { faults := faults + 1; }
      clicks := clicks + 1;
      if f == Displaced {
        var e := FindEmptyInventorySlot(slots, 9);
        if e.Some? { LeftClick(e.value); }
      }
    }

    method FindShulkerSlot() returns (r: Option<nat>)
      ensures r.Some? ==> r.value < |slots| && IsShulker(slots[r.value])
      ensures r.None? ==> forall i :: 0 <= i < |slots| ==> !IsShulker(slots[i])
    {
      for i := 0 to |slots|
        invariant forall k :: 0 <= k < i ==> !IsShulker(slots[k])
      {
        if IsShulker(slots[i]) { return Some(i); }
      }
      return None;
    }

    // ----- Emptying the hotbar -----

    method MoveHotbarToInventory() returns (r: Result, ghost upTo: nat)
      requires Valid()
      modifies this`slots, this`cursor, this`clicks, this`open, this`faults
      ensures Valid() && forall kind :: Total(kind) == old(Total(kind))
      ensures old(faults) <= faults && 36 <= upTo <= 45
      ensures r.Err? ==> r.error == Closed && !open && slots == old(slots) && cursor == old(cursor)
      // Short of 45 only when the window closed in mid-loop, which is no error.
      ensures r.Ok? ==> (upTo == 45 <==> open)
      ensures r.Ok? && faults == old(faults) && old(cursor).Empty? ==>
        cursor.Empty? && slots == HotbarMoved(old(slots), upTo)
    {
      upTo := 36;
      var isOpen := StillOpen();
      if !isOpen { return Err(Closed), upTo; }
      for h := 36 to 45
        invariant Valid() && upTo == h && open && old(faults) <= faults
        invariant forall kind :: Total(kind) == old(Total(kind))
        invariant faults == old(faults) && old(cursor).Empty? ==> cursor.Empty? && slots == HotbarMoved(old(slots), h)
      {
        isOpen := StillOpen();
        if !isOpen { break; }
        MoveUp(h);
        upTo := h + 1;
      }
      return Ok, upTo;
    }

    /** One hotbar slot, by a fresh look at the window. */
    method MoveUp(h: nat)
      requires Valid() && 36 <= h < 45
      modifies this`slots, this`cursor, this`clicks, this`faults
      ensures old(faults) <= faults
      ensures Valid() && forall kind :: Total(kind) == old(Total(kind))
      ensures faults == old(faults) && old(cursor).Empty? ==> cursor.Empty? && slots == MovedOne(old(slots), h)
    {
      if slots[h].Stack? {
        var e := FindEmptyInventorySlot(slots, 9);
        if e.Some? {
          LeftClick(h);
          LeftClick(e.value);
        }
      }
    }

    // ----- A shulker box into hotbar slot 0 -----

    /** Looks up to five times; None when the window closed. */
    method PollSlot0() returns (seen: Option<bool>)
      requires Valid()
      modifies this`open
      ensures seen.None? <==> !open
      ensures seen.Some? ==> seen.value == InSlot0()
    {
      for attempt := 0 to 5
        invariant attempt > 0 ==> open
      {
        var isOpen := StillOpen();
        if !isOpen { return None; }
        if IsShulker(slots[36]) { return Some(true); }
      }
      return Some(InSlot0());
    }

    /** Lifts what is in a slot and lays it in slot 36. */
    method CarryToSlot0(from: nat) returns (seen: Option<bool>)
      requires Valid() && from < WINDOW
      modifies this`slots, this`cursor, this`clicks, this`open, this`faults
      ensures Valid() && forall kind :: Total(kind) == old(Total(kind))
      ensures old(faults) <= faults && clicks == old(clicks) + 2 && (seen.None? <==> !open)
      ensures seen == Some(true) ==> InSlot0()
      ensures faults == old(faults) && old(BoxToMove(from)) && seen.Some? ==>
        seen.value && (old(cursor).Empty? ==> cursor == old(slots)[36])
    {
      LeftClick(from);
      LeftClick(36);
      seen := PollSlot0();
    }

    /** The shulker box is in slot `from`. */
    method PlaceFromSlot(from: nat) returns (r: Result)
      requires Valid() && from < WINDOW
      modifies this`slots, this`cursor, this`clicks, this`open, this`faults
      ensures Valid() && forall kind :: Total(kind) == old(Total(kind))
      ensures r.Ok? ==> InSlot0()
      ensures old(faults) <= faults && (r == Err(Closed) <==> !open) && (r.Err? ==> r.error in {Closed, NotMoved})
      ensures faults == old(faults) && open && old(BoxToMove(from)) ==> r.Ok?
      ensures faults == old(faults) && open && old(BoxToMove(from)) && old(cursor).Empty? ==>
        (cursor.Empty? <==> old(slots)[36].Empty? || SomeRowEmpty(old(slots)))
    {
      var isOpen := StillOpen();
      if !isOpen { return Err(Closed); }
      if slots[36].Stack? {
        var e := FindEmptyInventorySlot(slots, 9);
        if e.Some? {
          LeftClick(36);
          LeftClick(e.value);
        }
      }
      var seen := CarryToSlot0(from);
      if seen.None? { return Err(Closed); }
      return if seen.value then Ok else Err(NotMoved);
    }

    /** The shulker box is on the cursor. */
    method PlaceFromCursor() returns (r: Result)
      requires Valid()
      modifies this`slots, this`cursor, this`clicks, this`open, this`faults
      ensures Valid() && forall kind :: Total(kind) == old(Total(kind))
      ensures r.Ok? ==> InSlot0()
      ensures old(faults) <= faults && (r == Err(Closed) <==> !open)
      ensures r == Err(NoEmptySlot) ==> old(slots)[36].Stack? && !SomeRowEmpty(old(slots))
      // A box still on the cursor is tried four times over.
      ensures r == Err(NotMoved) && old(IsShulker(cursor)) ==>
        faults >= old(faults) + if old(slots)[36].Stack? && fate(old(clicks)) == Displaced then 2 else 4
      ensures faults == old(faults) && old(IsShulker(cursor)) && open ==>
        if old(slots)[36].Empty? || SomeRowEmpty(old(slots)) then r.Ok? && cursor.Empty?
        else r == Err(NoEmptySlot) && slots == old(slots) && cursor == old(cursor)
    {
      var isOpen := StillOpen();
      if !isOpen { return Err(Closed); }
      if slots[36].Stack? {
        var e := FindEmptyInventorySlot(slots, 9);
        if e.None? { return Err(NoEmptySlot); }
        ShiftClickSlot0();
        isOpen := StillOpen();
        if !isOpen { return Err(Closed); }
        if slots[36].Stack? { return Err(NotCleared); }
        if !IsShulker(cursor) {
          r := FetchLostShulker();
          return;
        }
      }
      LeftClick(36);
      isOpen := StillOpen();
      if !isOpen { return Err(Closed); }
      if IsShulker(slots[36]) { return Ok; }
      r := Recover();
    }

    /** The shift click threw the box off the cursor: look for it in the window. */
    method FetchLostShulker() returns (r: Result)
      requires Valid()
      modifies this`slots, this`cursor, this`clicks, this`open, this`faults
      ensures old(faults) <= faults && (r == Err(Closed) <==> !open)
      ensures r.Err? ==> r.error in {Closed, NotFound, NotMoved}
      ensures r == Err(NotFound) ==> forall i :: 0 <= i < WINDOW ==> !IsShulker(old(slots)[i])
      ensures open && faults == old(faults) && old(!IsShulker(cursor) && !IsShulker(slots[36])) ==>
        r.Ok? || r == Err(NotFound)
      ensures Valid() && forall kind :: Total(kind) == old(Total(kind))
      ensures r.Ok? ==> InSlot0()
    {
      var isOpen := StillOpen();
      if !isOpen { return Err(Closed); }
      var found := FindShulkerSlot();
      if found.None? { return Err(NotFound); }
      LeftClick(found.value);
      LeftClick(36);
      isOpen := StillOpen();
      if !isOpen { return Err(Closed); }
      return if IsShulker(slots[36]) then Ok else Err(NotMoved);
    }

    predicate BoxIn(s: seq<Slot>, c: Slot)
      requires |s| == WINDOW
    {
      IsShulker(c) || exists i :: 0 <= i < WINDOW && IsShulker(s[i])
    }

    predicate BoxSomewhere()
      requires |slots| == WINDOW
      reads this`slots, this`cursor
    {
      BoxIn(slots, cursor)
    }

    /** Clicks neither make nor lose a box. */
    lemma BoxStays(s: seq<Slot>, c: Slot)
      requires |s| == |slots| == WINDOW
      requires forall kind :: Total(kind) == Sum(s, CountOf(kind), 0, WINDOW) + CountIn(c, kind)
      ensures BoxIn(s, c) <==> BoxIn(slots, cursor)
    {
      if BoxIn(s, c) { BoxKeepsKind(s, c, slots, cursor); }
      if BoxIn(slots, cursor) { BoxKeepsKind(slots, cursor, s, c); }
    }

    lemma BoxKeepsKind(s: seq<Slot>, c: Slot, s': seq<Slot>, c': Slot)
      requires |s| == |s'| == WINDOW && BoxIn(s, c)
      requires forall kind ::
        Sum(s, CountOf(kind), 0, WINDOW) + CountIn(c, kind) == Sum(s', CountOf(kind), 0, WINDOW) + CountIn(c', kind)
      ensures BoxIn(s', c')
    {
      var box: Slot;
      if IsShulker(c) {
        box := c;
      } else {
        var i :| 0 <= i < WINDOW && IsShulker(s[i]);
        box := s[i];
      }
      InTotalIff(s, c, box.kind);
      InTotalIff(s', c', box.kind);
      assert Sum(s, CountOf(box.kind), 0, WINDOW) + CountIn(c, box.kind) > 0;
    }

    /** Three more attempts, from wherever the box is by now. It gives up only when in each of them a click failed. */
    method Recover() returns (r: Result)
      requires Valid()
      modifies this`slots, this`cursor, this`clicks, this`open, this`faults
      ensures Valid() && forall kind :: Total(kind) == old(Total(kind))
      ensures r.Ok? ==> InSlot0()
      ensures old(faults) <= faults && (r == Err(Closed) <==> !open)
      ensures open ==> (r == Err(NotFound) <==> !old(BoxSomewhere()))
      ensures r.Err? ==> r.error in {Closed, NotFound, NotMoved}
      ensures r == Err(NotMoved) ==> faults >= old(faults) + 3 && clicks <= old(clicks) + 12
    {
      for retry := 0 to 3
        invariant Valid() && forall kind :: Total(kind) == old(Total(kind))
        invariant retry > 0 ==> open && old(BoxSomewhere())
        invariant faults >= old(faults) + retry && clicks <= old(clicks) + 4 * retry
      {
        BoxStays(old(slots), old(cursor));
        var done: bool;
        done, r := Attempt();
        BoxStays(old(slots), old(cursor));
        if done { return; }
      }
      return Err(NotMoved);
    }

    /** One attempt: it fails for good, or succeeds, or a click of it failed. */
    method Attempt() returns (done: bool, r: Result)
      requires Valid()
      modifies this`slots, this`cursor, this`clicks, this`open, this`faults
      ensures Valid() && forall kind :: Total(kind) == old(Total(kind))
      ensures old(faults) <= faults && clicks <= old(clicks) + 4
      ensures done ==> (r == Err(Closed) <==> !open) && (r.Ok? ==> InSlot0())
      ensures done && r.Err? ==> r.error in {Closed, NotFound} && (r.error == NotFound ==> !old(BoxSomewhere()))
      ensures !done ==> faults > old(faults) && open && old(BoxSomewhere())
    {
      var isOpen := StillOpen();
      if !isOpen { return true, Err(Closed); }
      if IsShulker(slots[36]) { return true, Ok; }
      if IsShulker(cursor) {
        if slots[36].Stack? { ShiftClickSlot0(); }
        LeftClick(36);
        isOpen := StillOpen();
        if !isOpen { return true, Err(Closed); }
        return IsShulker(slots[36]), Ok;
      }
      var found := FindShulkerSlot();
      if found.None? { return true, Err(NotFound); }
      if slots[36].Stack? { ShiftClickSlot0(); }
      var seen := CarryToSlot0(found.value);
      if seen.None? { return true, Err(Closed); }
      return seen.value, Ok;
    }

    /** Whether a box is within reach: in slot 36, on the cursor with a way to put it down, or in another slot. */
    predicate Reachable()
      requires |slots| == WINDOW
      reads this
    {
      || IsShulker(slots[36])
      || (if IsShulker(cursor) then slots[36].Empty? || SomeRowEmpty(slots)
          else exists i :: 0 <= i < WINDOW && IsShulker(slots[i]))
    }

    /** Ok means the box is in slot 36. With faithful clicks it succeeds exactly when the box is within reach; a cursor
        that was empty is then empty again, unless another stack had to be swapped out of slot 36 with no row empty. */
    method EnsureShulkerInHotbarSlot0() returns (r: Result)
      requires Valid()
      modifies this`slots, this`cursor, this`clicks, this`open, this`faults
      ensures Valid() && forall kind :: Total(kind) == old(Total(kind))
      ensures r.Ok? ==> InSlot0()
      ensures old(faults) <= faults && (r == Err(Closed) <==> !open)
      ensures faults == old(faults) && open ==> (r.Ok? <==> old(Reachable()))
      ensures faults == old(faults) && old(cursor).Empty? && r.Ok? ==>
        (cursor.Empty? <==> old(IsShulker(slots[36])) || old(slots)[36].Empty? || SomeRowEmpty(old(slots)))
    {
      var isOpen := StillOpen();
      if !isOpen { return Err(Closed); }
      if IsShulker(slots[36]) { return Ok; }
      if IsShulker(cursor) {
        r := PlaceFromCursor();
        return;
      }
      isOpen := StillOpen();
      if !isOpen { return Err(Closed); }
      var found := FindShulkerSlot();
      if found.None? { return Err(NotFound); }
      r := PlaceFromSlot(found.value);
    }
  }
}
