/** Moving items between an open shulker box and the bot (src/bot/chest_io.rs, quick_move_from_container of
    src/bot/inventory.rs). Window slots 0..27 are the box, 27..54 the bot's inventory, 54..63 its hotbar. */
module Transfer {
  import opened Basics
  import opened Container

  const BOX := Range(0, 27)
  const PLAYER := Range(27, 63)
  const INVENTORY := Range(27, 54)
  const WINDOW: nat := 63

  datatype Error = Closed | NoEmptySlot
  datatype Result = Ok(moved: int) | Err(error: Error)

  /** What becomes of a shift or right click: seen at once, seen only after a further wait, or never received. */
  datatype Fate = Prompt | Late | Lost

  function Amount(slot: Slot): nat { if slot.Empty? then 0 else slot.count }

  function FirstStack(s: seq<Slot>, kind: Kind, lo: nat, hi: nat): (r: Option<nat>)
    requires hi <= |s|
    ensures r.Some? ==> lo <= r.value < hi && s[r.value].Stack? && s[r.value].kind == kind
    ensures r.None? ==> forall i :: lo <= i < hi ==> CountIn(s[i], kind) == 0
    decreases hi - lo
  {
    if hi <= lo then None
    else if s[lo].Stack? && s[lo].kind == kind then Some(lo)
    else FirstStack(s, kind, lo + 1, hi)
  }

  function FirstEmpty(s: seq<Slot>, lo: nat, hi: nat): (r: Option<nat>)
    requires hi <= |s|
    ensures r.Some? ==> lo <= r.value < hi && s[r.value].Empty?
    ensures r.None? ==> forall i :: lo <= i < hi ==> s[i].Stack?
    decreases hi - lo
  {
    if hi <= lo then None else if s[lo].Empty? then Some(lo) else FirstEmpty(s, lo + 1, hi)
  }

  /** Where a shift click puts items: into the box from its first slot, onto the bot from its last. */
  const INTO_BOX := seq(27, i => i)
  const ONTO_PLAYER := seq(36, i => 62 - i)

  lemma OrdersCover()
    ensures Ways(INTO_BOX, BOX) && Ways(ONTO_PLAYER, PLAYER)
  {
    forall i: nat | 0 <= i < 27 ensures i in INTO_BOX { assert INTO_BOX[i] == i; }
    forall i: nat | 27 <= i < 63 ensures i in ONTO_PLAYER { assert ONTO_PLAYER[62 - i] == i; }
  }

  /** Nothing but the kind moved, and what is missing of it is on the cursor. */
  ghost predicate Kept(s: seq<Slot>, s': seq<Slot>, cursor': Slot, kind: Kind) {
    && |s'| == |s|
    && (forall i :: 0 <= i < |s| ==>
      s'[i] == s[i] || ((s[i].Stack? ==> s[i].kind == kind) && (s'[i].Stack? ==> s'[i].kind == kind)))
    && (cursor'.Stack? ==> cursor'.kind == kind)
    && Sum(s', CountOf(kind), 0, |s|) + CountIn(cursor', kind) == Sum(s, CountOf(kind), 0, |s|)
  }

  /** Kept items are all there: every kind has its total over slots and cursor. */
  lemma KeptConserves(s: seq<Slot>, s': seq<Slot>, cursor': Slot, kind: Kind, other: Kind)
    requires Kept(s, s', cursor', kind)
    ensures Sum(s', CountOf(other), 0, |s|) + CountIn(cursor', other) == Sum(s, CountOf(other), 0, |s|)
  {
    if other != kind { SumSame(s, s', CountOf(other), 0, |s|); }
  }

  lemma MovedKept(s: seq<Slot>, s': seq<Slot>, kind: Kind, n: int, src: Range, dst: Range)
    requires Moved(s, s', kind, n, src, dst)
    ensures Kept(s, s', Empty, kind)
  {
    MovedConserves(s, s', kind, n, src, dst, kind);
  }

  lemma KeptTwice(s: seq<Slot>, s': seq<Slot>, s'': seq<Slot>, cursor: Slot, kind: Kind)
    requires Kept(s, s', Empty, kind) && Kept(s', s'', cursor, kind)
    ensures Kept(s, s'', cursor, kind)
  {
  }

  lemma LaidIsMoved(s: seq<Slot>, s1: seq<Slot>, from: nat, n: nat, src: Range, dst: Range)
    requires Apart(src, dst, |s|) && src.Has(from) && s[from].Stack? && n < s[from].count
    requires Grew(s[from := Empty], s1, s[from].kind, dst.lo, dst.hi)
    requires SumOver(s1, CountOf(s[from].kind), dst) == SumOver(s, CountOf(s[from].kind), dst) + n
    ensures Moved(s, s1[from := Stack(s[from].kind, s[from].count - n)], s[from].kind, n, src, dst)
  {
    var filled := s1[from := s[from]];
    SumUpdate(s1, CountOf(s[from].kind), dst.lo, dst.hi, from, s[from]);
    assert Grew(s, filled, s[from].kind, dst.lo, dst.hi);
    TakingFromSource(s, filled, from, s[from].count - n, src, dst);
    assert filled[from := Stack(s[from].kind, s[from].count - n)] == s1[from := Stack(s[from].kind, s[from].count - n)];
  }

  /** Everything of a moved stack's kind is there while part of it is on the cursor. */
  lemma MovedKeptLifted(s: seq<Slot>, s1: seq<Slot>, from: nat, rest: Slot, kind: Kind, n: int, src: Range, dst: Range)
    requires |s1| == |s| && from < |s| && s1[from].Empty? && rest.Stack? && rest.kind == kind
    requires CountIn(s[from], kind) > 0
    requires Moved(s, s1[from := rest], kind, n, src, dst)
    ensures Kept(s, s1, rest, kind)
  {
    MovedConserves(s, s1[from := rest], kind, n, src, dst, kind);
    SumUpdate(s1, CountOf(kind), 0, |s|, from, rest);
  }

  /** A stack was lifted from `from` and `n` of it laid down in `dst`: nothing is lost, and putting the rest back
      completes a movement of `n`. */
  lemma LiftedAndLaid(s: seq<Slot>, s1: seq<Slot>, from: nat, n: nat, src: Range, dst: Range)
    requires Apart(src, dst, |s|) && src.Has(from) && s[from].Stack? && n < s[from].count
    requires Grew(s[from := Empty], s1, s[from].kind, dst.lo, dst.hi)
    requires SumOver(s1, CountOf(s[from].kind), dst) == SumOver(s, CountOf(s[from].kind), dst) + n
    ensures
      var rest := Stack(s[from].kind, s[from].count - n);
      && Kept(s, s1, rest, s[from].kind)
      && Moved(s, s1[from := rest], s[from].kind, n, src, dst)
  {
    LaidIsMoved(s, s1, from, n, src, dst);
    MovedKeptLifted(s, s1, from, Stack(s[from].kind, s[from].count - n), s[from].kind, n, src, dst);
  }

  datatype Step = Done(moved: int) | Full | Failed(error: Error)

  /** What a range gains in stock it loses in room. */
  lemma {:induction false} RoomAfterGrowth(s: seq<Slot>, s': seq<Slot>, kind: Kind, size: Count, lo: nat, hi: nat)
    requires hi <= |s| == |s'| && forall i :: lo <= i < hi ==> GrewSlot(s[i], s'[i], kind)
    ensures Sum(s', CountOf(kind), lo, hi) + Sum(s', RoomFor(kind, size), lo, hi) ==
      Sum(s, CountOf(kind), lo, hi) + Sum(s, RoomFor(kind, size), lo, hi)
  {
    if lo < hi {
      RoomAfterGrowth(s, s', kind, size, lo, hi - 1);
      assert GrewSlot(s[hi - 1], s'[hi - 1], kind);
    }
  }

  lemma RoomAfterMove(s: seq<Slot>, s': seq<Slot>, kind: Kind, n: int, size: Count, src: Range, dst: Range)
    requires Moved(s, s', kind, n, src, dst) && Fits(s', kind, size)
    ensures SumOver(s', RoomFor(kind, size), dst) == SumOver(s, RoomFor(kind, size), dst) - n >= 0
    ensures SumOver(s', CountOf(kind), src) == SumOver(s, CountOf(kind), src) - n >= 0
  {
    RoomAfterGrowth(s, s', kind, size, dst.lo, dst.hi);
    SumNonNegative(s', RoomFor(kind, size), dst.lo, dst.hi);
    SumNonNegative(s', CountOf(kind), src.lo, src.hi);
  }

  lemma {:induction false} NoLikeStackHasRoom(s: seq<Slot>, order: seq<nat>, kind: Kind, n: nat, size: Count)
    requires forall i :: 0 <= i < |order| ==> order[i] < |s|
    requires forall i :: 0 <= i < |order| && s[order[i]].Stack? ==> RoomIn(s[order[i]], kind, size) <= 0
    ensures Pour(s, order, kind, n, size, false) == (s, n)
    decreases |order|
  {
    if order != [] && n != 0 {
      assert s[order[0] := s[order[0]]] == s;
      NoLikeStackHasRoom(s, order[1..], kind, n, size);
    }
  }

  /** A shift click on a box's stack fills the hotbar: the stack lands in its last slot when that is empty and no like
      stack of the bot has room. */
  lemma ShiftClickFillsHotbar(s: seq<Slot>, i: nat, size: Count)
    requires |s| == WINDOW && BOX.Has(i) && s[i].Stack? && s[i].count <= size && s[62].Empty?
    requires forall j :: PLAYER.Has(j) && s[j].Stack? ==> RoomIn(s[j], s[i].kind, size) <= 0
    ensures forall k :: 0 <= k < |ONTO_PLAYER| ==> ONTO_PLAYER[k] < |s|
    ensures ShiftClicked(s, i, ONTO_PLAYER, size) == s[62 := s[i]][i := Empty]
  {
    var kind, c := s[i].kind, s[i].count;
    NoLikeStackHasRoom(s, ONTO_PLAYER, kind, c, size);
    assert ONTO_PLAYER[0] == 62 && Share(s[62], kind, c, size, true) == c;
    assert Pour(s, ONTO_PLAYER, kind, c, size, true) == (s[62 := s[i]], 0);
  }

  /** For every stack of the kind in the box there is an empty slot in the bot's inventory. */
  predicate Roomy(s: seq<Slot>, kind: Kind)
    requires |s| == WINDOW
  {
    SumOver(s, EmptySlots, INVENTORY) >= SumOver(s, StacksOf(kind), BOX)
  }

  /** An empty inventory slot takes a whole stack. */
  lemma EmptySlotTakesAStack(s: seq<Slot>, kind: Kind, size: Count)
    requires |s| == WINDOW && FirstEmpty(s, 27, 54).Some? && Fits(s, kind, size)
    ensures SumOver(s, RoomFor(kind, size), PLAYER) >= size
  {
    SumAtLeast(s, RoomFor(kind, size), 27, 63, FirstEmpty(s, 27, 54).value);
  }

  lemma RoomySlot(s: seq<Slot>, kind: Kind, i: nat)
    requires |s| == WINDOW && Roomy(s, kind) && BOX.Has(i) && s[i].Stack? && s[i].kind == kind
    ensures FirstEmpty(s, 27, 54).Some?
  {
    SumAtLeast(s, StacksOf(kind), 0, 27, i);
    if FirstEmpty(s, 27, 54).None? { SumZero(s, EmptySlots, 27, 54); }
  }

  lemma ShiftStaysRoomy(s: seq<Slot>, kind: Kind, i: nat, size: Count)
    requires |s| == WINDOW && Roomy(s, kind) && BOX.Has(i) && s[i].Stack? && s[i].kind == kind && Fits(s, kind, size)
    ensures forall k :: 0 <= k < |ONTO_PLAYER| ==> ONTO_PLAYER[k] < |s|
    ensures Roomy(ShiftClicked(s, i, ONTO_PLAYER, size), kind)
  {
    OrdersCover();
    RoomySlot(s, kind, i);
    EmptySlotTakesAStack(s, kind, size);
    var s' := ShiftClicked(s, i, ONTO_PLAYER, size);
    ghost var n := ShiftMoves(s, i, ONTO_PLAYER, size, BOX, PLAYER);
    ShiftTakesOneSlot(s, i, ONTO_PLAYER, size, INVENTORY);
    assert n == s[i].count;
    SumUpdate(s, StacksOf(kind), 0, 27, i, Empty);
    SumSame(s[i := Empty], s', StacksOf(kind), 0, 27);
  }

  lemma Lifted(s: seq<Slot>, i: nat)
    requires i < |s| && s[i].Stack?
    ensures Kept(s, s[i := Empty], s[i], s[i].kind)
  {
    SumUpdate(s, CountOf(s[i].kind), 0, |s|, i, Empty);
  }

  lemma LiftLeavesBox(s: seq<Slot>, i: nat, kind: Kind, size: Count)
    requires |s| == WINDOW && PLAYER.Has(i)
    ensures SumOver(s[i := Empty], CountOf(kind), BOX) == SumOver(s, CountOf(kind), BOX)
    ensures SumOver(s[i := Empty], RoomFor(kind, size), BOX) == SumOver(s, RoomFor(kind, size), BOX)
    ensures s[i := Empty][..27] == s[..27]
  {
    SumUpdate(s, CountOf(kind), 0, 27, i, Empty);
    SumUpdate(s, RoomFor(kind, size), 0, 27, i, Empty);
  }

  lemma RoomIsNonNegative(s: seq<Slot>, kind: Kind, size: Count)
    requires |s| == WINDOW && Fits(s, kind, size)
    ensures SumOver(s, RoomFor(kind, size), BOX) >= 0
  {
    SumNonNegative(s, RoomFor(kind, size), 0, 27);
  }

  predicate NoRoom(s: seq<Slot>, kind: Kind, size: Count)
    requires |s| == WINDOW
  {
    forall k :: 0 <= k < 27 ==> RoomIn(s[k], kind, size) <= 0
  }

  /** A stack was lifted and `n` of it laid in one empty slot of the bot. */
  lemma LaidInEmptySlot(s: seq<Slot>, i: nat, t: nat, n: nat)
    requires |s| == WINDOW && BOX.Has(i) && PLAYER.Has(t) && s[i].Stack? && n < s[i].count && s[t].Empty?
    ensures
      var s1, rest, kind := s[i := Empty][t := Put(s[t], s[i].kind, n)], Stack(s[i].kind, s[i].count - n), s[i].kind;
      Kept(s, s1, rest, kind) && Moved(s, s1[i := rest], kind, n, BOX, PLAYER)
  {
    var lifted, x := s[i := Empty], Put(s[t], s[i].kind, n);
    SumUpdate(s, CountOf(s[i].kind), 27, 63, i, Empty);
    SumUpdate(lifted, CountOf(s[i].kind), 27, 63, t, x);
    LiftedAndLaid(s, lifted[t := x], i, n, BOX, PLAYER);
  }

  // ----- Turns: what each found stack came to -----

  /** How many of `n` clicks, from the `click`-th, are never received. */
  function Losses(fate: nat -> Fate, click: nat, n: nat): (lost: nat)
    ensures lost <= n
  {
    if n == 0 then 0 else Losses(fate, click, n - 1) + if fate(click + n - 1) == Lost then 1 else 0
  }

  lemma {:induction false} NoLosses(fate: nat -> Fate, click: nat, n: nat)
    requires forall k :: fate(k) != Lost
    ensures Losses(fate, click, n) == 0
  {
    if n > 0 { NoLosses(fate, click, n - 1); }
  }

  /** A stack that is all wanted goes by one shift click; of another, what is wanted goes by right clicks. `room` is
      what the other side took at that moment. */
  datatype Turn = Turn(whole: bool, click: nat, wanted: nat, room: nat, moved: int)
  {
    /** What it moves when no click is lost. */
    function Most(): nat { Min(wanted, room) }

    function Clicks(): nat { if whole then 1 else Most() }

    /** A shift click moves all it can or is lost; of right clicks each lost one moves one less. */
    predicate IsTrue(fate: nat -> Fate) {
      moved == if whole then (if fate(click) == Lost then 0 else Most()) else Most() - Losses(fate, click, Most())
    }
  }

  function TotalMoved(turns: seq<Turn>): int {
    if turns == [] then 0 else TotalMoved(turns[..|turns| - 1]) + turns[|turns| - 1].moved
  }

  function TotalClicks(turns: seq<Turn>): nat {
    if turns == [] then 0 else TotalClicks(turns[..|turns| - 1]) + turns[|turns| - 1].Clicks()
  }

  /** How many turns in a row, up to the last, moved nothing. */
  function Idle(turns: seq<Turn>): (n: nat)
    ensures n <= |turns|
  {
    if turns == [] || turns[|turns| - 1].moved != 0 then 0 else 1 + Idle(turns[..|turns| - 1])
  }

  /** The last turn moved part of the part that was wanted. */
  predicate CutShort(turns: seq<Turn>) {
    turns != [] && !turns[|turns| - 1].whole && 0 < turns[|turns| - 1].moved < turns[|turns| - 1].wanted
  }

  /** Turns as a transfer of `amount` takes them, from the `click`-th click on and with `room` at first: after the third
      idle one in a row there is no other, and in a deposit none after one cut short. */
  ghost predicate Turns(fate: nat -> Fate, turns: seq<Turn>, click: nat, amount: nat, room: nat, deposit: bool)
    decreases |turns|
  {
    turns == [] ||
    var before, last := turns[..|turns| - 1], turns[|turns| - 1];
    && Turns(fate, before, click, amount, room, deposit)
    && Idle(before) < 3 && !(deposit && CutShort(before))
    && last.IsTrue(fate) && last.click == click + TotalClicks(before) && last.room == room - TotalMoved(before)
    && 0 < last.wanted <= amount - TotalMoved(before)
    && (!last.whole ==> last.wanted == amount - TotalMoved(before))
  }

  lemma OneMoreTurn(fate: nat -> Fate, turns: seq<Turn>, turn: Turn, click: nat, amount: nat, room: nat, deposit: bool)
    requires Turns(fate, turns, click, amount, room, deposit) && Idle(turns) < 3 && !(deposit && CutShort(turns))
    requires turn.IsTrue(fate) && turn.click == click + TotalClicks(turns) && turn.room == room - TotalMoved(turns)
    requires 0 < turn.wanted <= amount - TotalMoved(turns)
    requires !turn.whole ==> turn.wanted == amount - TotalMoved(turns)
    ensures
      var turns' := turns + [turn];
      && Turns(fate, turns', click, amount, room, deposit)
      && TotalMoved(turns') == TotalMoved(turns) + turn.moved
      && TotalClicks(turns') == TotalClicks(turns) + turn.Clicks()
      && Idle(turns') == (if turn.moved == 0 then Idle(turns) + 1 else 0)
      && (CutShort(turns') <==> !turn.whole && 0 < turn.moved < turn.wanted)
  {
    assert (turns + [turn])[..|turns|] == turns;
  }

  /** The transfer stopped after three idle turns, or a deposit after right clicks of the last turn were lost. */
  predicate GaveUp(turns: seq<Turn>, deposit: bool) {
    Idle(turns) == 3 || (deposit && CutShort(turns) && turns[|turns| - 1].moved < turns[|turns| - 1].Most())
  }

  /** With no click lost nothing makes a transfer give up but want of room. */
  lemma LosslessNeverGivesUp(fate: nat -> Fate, turns: seq<Turn>, click: nat, amount: nat, room: nat, deposit: bool)
    requires Turns(fate, turns, click, amount, room, deposit) && GaveUp(turns, deposit)
    requires forall k :: fate(k) != Lost
    ensures TotalMoved(turns) == room
  {
    var last := turns[|turns| - 1];
    NoLosses(fate, last.click, last.Most());
  }

  /** What there is to move: the least of what is asked for, what is there, and what the other side takes. */
  function Least(s: seq<Slot>, kind: Kind, amount: nat, size: Count, src: Range, dst: Range): int
    requires src.hi <= |s| && dst.hi <= |s|
  {
    Min(amount, Min(SumOver(s, CountOf(kind), src), SumOver(s, RoomFor(kind, size), dst)))
  }

  /** The turn that found this stack. */
  ghost predicate IsTurn(turn: Turn, s: seq<Slot>, i: nat, kind: Kind, amount: nat, size: Count, dst: Range, click: nat)
    requires i < |s| && s[i].Stack? && dst.hi <= |s|
  {
    && turn.whole == (amount >= s[i].count) && turn.click == click && turn.wanted == Min(amount, s[i].count)
    && turn.room == SumOver(s, RoomFor(kind, size), dst)
  }

  predicate AllWhole(turns: seq<Turn>) { forall i :: 0 <= i < |turns| ==> turns[i].whole }

  lemma {:induction false} AllWholeClicks(turns: seq<Turn>)
    requires AllWhole(turns)
    ensures TotalClicks(turns) == |turns|
  {
    if turns != [] { AllWholeClicks(turns[..|turns| - 1]); }
  }

  lemma IdleTurnIsLost(fate: nat -> Fate, turns: seq<Turn>, click: nat, amount: nat, room: nat, deposit: bool)
    requires Turns(fate, turns, click, amount, room, deposit) && AllWhole(turns) && Idle(turns) > 0
    requires TotalMoved(turns) < room
    ensures
      var before := turns[..|turns| - 1];
      && fate(click + |turns| - 1) == Lost
      && Turns(fate, before, click, amount, room, deposit) && AllWhole(before) && Idle(before) == Idle(turns) - 1
      && TotalMoved(before) < room
  {
    AllWholeClicks(turns[..|turns| - 1]);
  }

  /** Three idle turns of shift clicks, with room left, are three clicks lost in a row. */
  lemma ThreeIdleAreLost(fate: nat -> Fate, turns: seq<Turn>, click: nat, amount: nat, room: nat, deposit: bool)
    requires Turns(fate, turns, click, amount, room, deposit) && AllWhole(turns) && Idle(turns) == 3
    requires TotalMoved(turns) < room
    ensures
      var c := click + |turns| - 3;
      fate(c) == Lost && fate(c + 1) == Lost && fate(c + 2) == Lost
  {
    var n := |turns|;
    IdleTurnIsLost(fate, turns, click, amount, room, deposit);
    IdleTurnIsLost(fate, turns[..n - 1], click, amount, room, deposit);
    IdleTurnIsLost(fate, turns[..n - 1][..n - 2], click, amount, room, deposit);
  }

  /** How a transfer of `amount` stands after these turns. */
  ghost predicate Underway(fate: nat -> Fate, s: seq<Slot>, kind: Kind, amount: nat, size: Count, src: Range,
        dst: Range, deposit: bool, click: nat, turns: seq<Turn>, total: int)
    requires src.hi <= |s| && dst.hi <= |s|
  {
    var room := SumOver(s, RoomFor(kind, size), dst);
    && 0 <= room && Turns(fate, turns, click, amount, room, deposit) && TotalMoved(turns) == total
    && (amount >= SumOver(s, CountOf(kind), src) ==> AllWhole(turns))
  }

  /** A turn more, which found a stack of what is left. */
  lemma TurnTaken(fate: nat -> Fate, s: seq<Slot>, before: seq<Slot>, i: nat, kind: Kind, amount: nat, size: Count,
        src: Range, dst: Range, deposit: bool, click: nat, turns: seq<Turn>, total: int, turn: Turn)
    requires Moved(s, before, kind, total, src, dst) && Fits(before, kind, size) && 0 <= total < amount
    requires Underway(fate, s, kind, amount, size, src, dst, deposit, click, turns, total)
    requires Idle(turns) < 3 && !(deposit && CutShort(turns))
    requires src.Has(i) && before[i].Stack? && before[i].kind == kind
    requires IsTurn(turn, before, i, kind, amount - total, size, dst, click + TotalClicks(turns)) && turn.IsTrue(fate)
    ensures
      var turns' := turns + [turn];
      && Underway(fate, s, kind, amount, size, src, dst, deposit, click, turns', total + turn.moved)
      && TotalClicks(turns') == TotalClicks(turns) + turn.Clicks()
      && Idle(turns') == (if turn.moved == 0 then Idle(turns) + 1 else 0)
      && (CutShort(turns') <==> !turn.whole && 0 < turn.moved < turn.wanted)
  {
    RoomAfterMove(s, before, kind, total, size, src, dst);
    SumAtLeast(before, CountOf(kind), src.lo, src.hi, i);
    OneMoreTurn(fate, turns, turn, click, amount, SumOver(s, RoomFor(kind, size), dst), deposit);
  }

  class Window {
    var slots: seq<Slot>
    var cursor: Slot
    var clicks: nat
    /** A window that was closed stays closed. */
    var open: bool
    const fate: nat -> Fate
    const sizes: Sizes

    constructor (slots: seq<Slot>, cursor: Slot, fate: nat -> Fate, sizes: Sizes)
      ensures this.slots == slots && this.cursor == cursor && this.fate == fate && this.sizes == sizes
      ensures open && clicks == 0
    {
      this.slots, this.cursor, this.fate, this.sizes := slots, cursor, fate, sizes;
      clicks, open := 0, true;
    }

    ghost predicate Lossless() { forall n :: fate(n) != Lost }

    // ----- Clicks -----

    /** Whether no three clicks in a row are lost. */
    ghost predicate NoThreeLost() { forall n: nat :: fate(n) == Lost && fate(n + 1) == Lost ==> fate(n + 2) != Lost }

    /** A read of the window, which may have closed since the last; a closed one reads as nothing. */
    method StillOpen() returns (yes: bool)
      modifies this`open
      ensures yes == open && (open ==> old(open))
    {
      var closes: bool := *;
      open := open && !closes;
      yes := open;
    }

    method LeftClick(i: nat)
      requires i < |slots|
      modifies this`slots, this`cursor
      ensures var (a, b) := LeftClicked(old(slots[i]), old(cursor), sizes); slots == old(slots)[i := a] && cursor == b
    {
      var (a, b) := LeftClicked(slots[i], cursor, sizes);
      slots, cursor := slots[i := a], b;
    }

    /** Right-clicks a slot `n` times with part of a stack on the cursor. */
    method RightClicks(i: nat, n: nat) returns (ghost placed: nat)
      requires i < |slots| && cursor.Stack? && n < cursor.count
      requires RoomIn(slots[i], cursor.kind, sizes(cursor.kind)) >= n
      modifies this`slots, this`cursor, this`clicks
      ensures placed <= n && Landed(old(clicks), n, placed) && clicks == old(clicks) + n
      ensures slots == old(slots)[i := Put(old(slots[i]), old(cursor).kind, placed)]
      ensures cursor == Stack(old(cursor).kind, old(cursor).count - placed)
    {
      placed := 0;
      for k := 0 to n
        invariant placed <= k && Landed(old(clicks), k, placed) && clicks == old(clicks) + k
        invariant slots == old(slots)[i := Put(old(slots[i]), old(cursor).kind, placed)]
        invariant cursor == Stack(old(cursor).kind, old(cursor).count - placed)
      {
        if fate(clicks) != Lost {
          var (a, b) := RightClicked(slots[i], cursor, sizes);
          slots, cursor := slots[i := a], b;
          placed := placed + 1;
        }
        clicks := clicks + 1;
      }
    }

    /** Shift-clicks a slot and reports how many items the slot was seen to lose; None when the window closed. */
    method QuickMove(i: nat, order: seq<nat>) returns (moved: Option<int>)
      requires i < |slots| && forall k :: 0 <= k < |order| ==> order[k] < |slots|
      modifies this`slots, this`clicks, this`open
      ensures slots == old(slots) ||
        (old(slots[i]).Stack? && slots == ShiftClicked(old(slots), i, order, sizes(old(slots[i]).kind)))
      ensures moved.None? <==> !open
      ensures old(slots[i]).Stack? && moved.Some? ==>
        && clicks == old(clicks) + 1
        && slots == if fate(old(clicks)) == Lost then old(slots)
                    else ShiftClicked(old(slots), i, order, sizes(old(slots[i]).kind))
      ensures moved.Some? ==> moved.value == 0 || moved.value == Amount(old(slots[i])) - Amount(slots[i])
    {
      var isOpen := StillOpen();
      if !isOpen { return None; }
      var before := slots[i];
      if before.Empty? { return Some(0); }
      var f := fate(clicks);
      clicks := clicks + 1;
      if f != Lost {
        slots := ShiftClicked(slots, i, order, sizes(before.kind));
      }
      isOpen := StillOpen();
      if !isOpen { return None; }
      var after := if f == Prompt then slots[i] else before;
      return Some(Amount(before) - Amount(after));
    }

    // ----- Steps shared by the two directions -----

    /** Shift-clicks a stack, and looks again before believing that nothing moved. */
    method ShiftStep(i: nat, kind: Kind, order: seq<nat>, src: Range, dst: Range) returns (step: Step)
      requires Apart(src, dst, |slots|) && src.Has(i) && Ways(order, dst)
      requires slots[i].Stack? && slots[i].kind == kind && Fits(slots, kind, sizes(kind)) && cursor.Empty?
      modifies this`slots, this`clicks, this`open
      ensures step != Full && (step.Failed? ==> step.error == Closed && Kept(old(slots), slots, cursor, kind))
      ensures step.Failed? <==> !open
      ensures step.Done? ==>
        && 0 <= step.moved <= old(slots[i]).count && clicks == old(clicks) + 1
        && Moved(old(slots), slots, kind, step.moved, src, dst) && Fits(slots, kind, sizes(kind))
        && (fate(old(clicks)) == Lost ==> slots == old(slots) && step.moved == 0)
        && (fate(old(clicks)) != Lost ==> slots == ShiftClicked(old(slots), i, order, sizes(kind)))
        && (fate(old(clicks)) != Lost ==>
          step.moved == Min(old(slots[i]).count, SumOver(old(slots), RoomFor(kind, sizes(kind)), dst)))
    {
      var count := slots[i].count;
      ghost var n := ShiftMoves(slots, i, order, sizes(kind), src, dst);
      ghost var there := ShiftClicked(slots, i, order, sizes(kind));
      MovedKept(slots, there, kind, n, src, dst);
      SumNonNegative(slots, RoomFor(kind, sizes(kind)), dst.lo, dst.hi);
      var seen := QuickMove(i, order);
      if seen.None? { return Failed(Closed); }
      if seen.value > 0 {
        return Done(seen.value);
      }
      var isOpen := StillOpen();
      if !isOpen { return Failed(Closed); }
      var current := Amount(slots[i]);
      if current < count {
        return Done(count - current);
      }
      return Done(0);
    }

    /** Of `asked` right clicks, from the `click`-th on, each that was received placed one item. */
    ghost predicate Landed(click: nat, asked: nat, placed: int) {
      if asked == 0 then placed == 0
      else Landed(click, asked - 1, placed - if fate(click + asked - 1) == Lost then 0 else 1)
    }

    lemma {:induction false} LandedMore(click: nat, asked: nat, placed: int, next: nat, n: nat, here: int)
      requires Landed(click, asked, placed) && Landed(next, n, here) && next == click + asked
      ensures Landed(click, asked + n, placed + here)
    {
      if n > 0 { LandedMore(click, asked, placed, next, n - 1, here - if fate(next + n - 1) == Lost then 0 else 1); }
    }

    lemma {:induction false} LandedIs(click: nat, asked: nat, placed: int)
      requires Landed(click, asked, placed)
      ensures placed == asked - Losses(fate, click, asked)
    {
      if asked > 0 { LandedIs(click, asked - 1, placed - if fate(click + asked - 1) == Lost then 0 else 1); }
    }

    /** Right-clicks part of the cursor's stack into one slot of the box that has room for it. */
    method FillSlot(i: nat, kind: Kind, n: nat, stackSize: Count) returns (ghost placed: nat)
      requires i < 27 < |slots| && stackSize == sizes(kind) && Fits(slots, kind, stackSize)
      requires cursor.Stack? && cursor.kind == kind && n < cursor.count && RoomIn(slots[i], kind, stackSize) >= n
      modifies this`slots, this`cursor, this`clicks
      ensures Grew(old(slots), slots, kind, 0, i + 1) && Fits(slots, kind, stackSize)
      ensures forall k :: 0 <= k < |slots| && k != i ==> slots[k] == old(slots)[k]
      ensures placed <= n && Landed(old(clicks), n, placed) && clicks == old(clicks) + n
      ensures cursor == Stack(kind, old(cursor).count - placed)
      ensures SumOver(slots, CountOf(kind), BOX) == SumOver(old(slots), CountOf(kind), BOX) + placed
    {
      ghost var before := slots;
      placed := RightClicks(i, n);
      SumUpdate(before, CountOf(kind), 0, 27, i, slots[i]);
    }

    /** One slot's share of the drop. */
    method DropSlot(i: nat, kind: Kind, toPlace: nat, room: int, stackSize: Count)
      returns (asked: nat, ghost placed: nat)
      requires i < 27 < |slots| && stackSize == sizes(kind) && Fits(slots, kind, stackSize)
      requires cursor.Stack? && cursor.kind == kind && toPlace < cursor.count
      requires room == RoomIn(slots[i], kind, stackSize)
      modifies this`slots, this`cursor, this`clicks
      ensures asked == Min(toPlace, room) && placed <= asked
      ensures Landed(old(clicks), asked, placed) && clicks == old(clicks) + asked
      ensures Grew(old(slots), slots, kind, 0, i + 1) && Fits(slots, kind, stackSize)
      ensures forall k :: 0 <= k < |slots| && k != i ==> slots[k] == old(slots)[k]
      ensures cursor == Stack(kind, old(cursor).count - placed)
      ensures SumOver(slots, CountOf(kind), BOX) == SumOver(old(slots), CountOf(kind), BOX) + placed
    {
      asked, placed := 0, 0;
      if room > 0 && toPlace > 0 {
        asked := Min(toPlace, room);
        placed := FillSlot(i, kind, asked, stackSize);
      }
    }

    /** Right-clicks the cursor's stack into the box, slot by slot, as far as the snapshot showed room. */
    method DropInto(all: seq<Slot>, kind: Kind, amount: nat, stackSize: Count) returns (ghost placed: nat)
      requires |slots| == |all| == WINDOW && slots[..27] == all[..27] && stackSize == sizes(kind)
      requires Fits(slots, kind, stackSize) && cursor.Stack? && cursor.kind == kind && amount < cursor.count
      modifies this`slots, this`cursor, this`clicks
      ensures Grew(old(slots), slots, kind, 0, 27) && Fits(slots, kind, stackSize)
      ensures placed <= amount && cursor == Stack(kind, old(cursor).count - placed)
      ensures SumOver(slots, CountOf(kind), BOX) == SumOver(old(slots), CountOf(kind), BOX) + placed
      // Each lost click places one less than the smaller of amount and room.
      ensures
        var most := Min(amount, SumOver(old(slots), RoomFor(kind, stackSize), BOX));
        most >= 0 && clicks == old(clicks) + most && Landed(old(clicks), most, placed)
    {
      placed := 0;
      var toPlace: nat := amount;
      ghost var asked: nat := 0;
      for i := 0 to 27
        invariant |slots| == WINDOW && Grew(old(slots), slots, kind, 0, i) && Fits(slots, kind, stackSize)
        invariant asked == amount - toPlace && placed <= asked
        invariant asked == Min(amount, Sum(old(slots), RoomFor(kind, stackSize), 0, i))
        invariant Landed(old(clicks), asked, placed) && clicks == old(clicks) + asked
        invariant cursor == Stack(kind, old(cursor).count - placed)
        invariant SumOver(slots, CountOf(kind), BOX) == SumOver(old(slots), CountOf(kind), BOX) + placed
      {
        assert slots[i] == all[i] by { assert old(slots)[i] == all[..27][i]; }
        ghost var before, next := slots, clicks;
        var n;
        ghost var here;
        n, here := DropSlot(i, kind, toPlace, RoomIn(all[i], kind, stackSize), stackSize);
        GrewTwice(old(slots), before, slots, kind, 0, i + 1);
        LandedMore(old(clicks), asked, placed, next, n, here);
        placed, asked, toPlace := placed + here, asked + n, toPlace - n;
      }
    }

    /** Part of a stack goes into the box: lift it, drop what is wanted, put the rest back. */
    method PartialDeposit(i: nat, kind: Kind, amount: nat, stackSize: Count) returns (step: Step)
      requires |slots| == WINDOW && PLAYER.Has(i) && stackSize == sizes(kind) && cursor.Empty? && open
      requires slots[i].Stack? && slots[i].kind == kind && amount < slots[i].count && Fits(slots, kind, stackSize)
      modifies this`slots, this`cursor, this`clicks, this`open
      ensures step.Failed? ==> step.error == Closed && Kept(old(slots), slots, cursor, kind)
      ensures step.Failed? <==> !open
      ensures step.Full? ==>
        && slots == old(slots) && cursor.Empty? && clicks == old(clicks)
        && SumOver(slots, RoomFor(kind, stackSize), BOX) == 0
      ensures step.Done? ==>
        && 0 <= step.moved <= amount && cursor.Empty? && Fits(slots, kind, stackSize)
        && Moved(old(slots), slots, kind, step.moved, PLAYER, BOX)
      ensures
        var most := Min(amount, SumOver(old(slots), RoomFor(kind, stackSize), BOX));
        && most >= 0
        && (step.Done? ==> clicks == old(clicks) + most && Landed(old(clicks), most, step.moved))
    {
      var all := slots;
      RoomIsNonNegative(all, kind, stackSize);
      LeftClick(i);
      if NoRoom(all, kind, stackSize) {
        SumZero(all, RoomFor(kind, stackSize), 0, 27);
        LeftClick(i);
        return Full;
      }
      step := DropAndPutBack(i, all, kind, amount, stackSize);
    }

    /** With the stack of slot `i` on the cursor: drops part of it into the box, and puts the rest where it was. */
    method DropAndPutBack(i: nat, all: seq<Slot>, kind: Kind, amount: nat, stackSize: Count) returns (step: Step)
      requires |all| == WINDOW && PLAYER.Has(i) && stackSize == sizes(kind) && Fits(all, kind, stackSize) && open
      requires all[i].Stack? && all[i].kind == kind && amount < all[i].count
      requires slots == all[i := Empty] && cursor == all[i]
      modifies this`slots, this`cursor, this`clicks, this`open
      ensures step != Full && (step.Failed? <==> !open)
      ensures step.Failed? ==> step.error == Closed && Kept(all, slots, cursor, kind)
      ensures step.Done? ==>
        && 0 <= step.moved <= amount && cursor.Empty? && Fits(slots, kind, stackSize)
        && Moved(all, slots, kind, step.moved, PLAYER, BOX)
      ensures
        var most := Min(amount, SumOver(all, RoomFor(kind, stackSize), BOX));
        most >= 0 && (step.Done? ==> clicks == old(clicks) + most && Landed(old(clicks), most, step.moved))
    {
      LiftLeavesBox(all, i, kind, stackSize);
      RoomIsNonNegative(all, kind, stackSize);
      ghost var placed := DropInto(all, kind, amount, stackSize);
      LiftedAndLaid(all, slots, i, placed, PLAYER, BOX);
      var isOpen := StillOpen();
      if !isOpen { return Failed(Closed); }
      var seen := CountGrowth(all, slots, kind, stackSize);
      assert seen == placed;
      LeftClick(i);
      return Done(Min(seen, amount));
    }

    // ----- The deposit -----

    /** One stack of the bot's, whole by a shift click when it is all wanted, else in part. */
    method DepositStack(i: nat, kind: Kind, amount: nat, stackSize: Count) returns (step: Step, ghost turn: Turn)
      requires |slots| == WINDOW && PLAYER.Has(i) && stackSize == sizes(kind) && cursor.Empty? && amount > 0 && open
      requires slots[i].Stack? && slots[i].kind == kind && Fits(slots, kind, stackSize)
      modifies this`slots, this`cursor, this`clicks, this`open
      ensures step.Failed? ==> step.error == Closed && Kept(old(slots), slots, cursor, kind)
      ensures step.Failed? <==> !open
      ensures step.Full? ==>
        && slots == old(slots) && cursor.Empty? && clicks == old(clicks)
        && SumOver(slots, RoomFor(kind, stackSize), BOX) == 0
      ensures step.Done? ==>
        && 0 <= step.moved <= amount && cursor.Empty? && Fits(slots, kind, stackSize)
        && Moved(old(slots), slots, kind, step.moved, PLAYER, BOX)
      ensures step.Done? ==>
        && IsTurn(turn, old(slots), i, kind, amount, stackSize, BOX, old(clicks))
        && turn.moved == step.moved && turn.IsTrue(fate) && clicks == old(clicks) + turn.Clicks()
    {
      OrdersCover();
      RoomIsNonNegative(slots, kind, stackSize);
      var count := slots[i].count;
      turn := Turn(amount >= count, clicks, Min(amount, count), SumOver(slots, RoomFor(kind, stackSize), BOX), 0);
      if amount >= count {
        step := ShiftStep(i, kind, INTO_BOX, PLAYER, BOX);
      } else {
        ghost var click := clicks;
        step := PartialDeposit(i, kind, amount, stackSize);
        if step.Done? { PartTurn(turn, click, step.moved); }
      }
      if step.Done? { turn := turn.(moved := step.moved); }
    }

    /** Nothing is left to ask for, to take, or to take it. */
    ghost predicate Exhausted(s: seq<Slot>, kind: Kind, amount: nat, total: int, src: Range, dst: Range)
      requires src.hi <= |s| && dst.hi <= |s|
    {
      total == amount || SumOver(s, CountOf(kind), src) == 0 || SumOver(s, RoomFor(kind, sizes(kind)), dst) == 0
    }

    /** A transfer's result: it moved all there was to move, or gave up; and it gives up only for lost clicks, of shift
        clicks three in a row. */
    lemma Finished(s: seq<Slot>, s': seq<Slot>, kind: Kind, amount: nat, src: Range, dst: Range, deposit: bool,
          click: nat, turns: seq<Turn>, total: int)
      requires Moved(s, s', kind, total, src, dst) && Fits(s', kind, sizes(kind)) && 0 <= total <= amount
      requires Underway(fate, s, kind, amount, sizes(kind), src, dst, deposit, click, turns, total)
      requires Exhausted(s', kind, amount, total, src, dst) || Idle(turns) == 3 || (deposit && CutShort(turns))
      ensures
        var least := Least(s, kind, amount, sizes(kind), src, dst);
        && (total == least || GaveUp(turns, deposit))
        && (Lossless() ==> total == least)
        && (NoThreeLost() && amount >= SumOver(s, CountOf(kind), src) ==> total == least)
    {
      var room := SumOver(s, RoomFor(kind, sizes(kind)), dst);
      RoomAfterMove(s, s', kind, total, sizes(kind), src, dst);
      if total < Least(s, kind, amount, sizes(kind), src, dst) {
        assert GaveUp(turns, deposit);
        if Lossless() { LosslessNeverGivesUp(fate, turns, click, amount, room, deposit); }
        if AllWhole(turns) && NoThreeLost() { ThreeIdleAreLost(fate, turns, click, amount, room, deposit); }
      }
    }

    /** Where a transfer stands between two turns. */
    ghost predicate Going(s: seq<Slot>, kind: Kind, amount: nat, src: Range, dst: Range, deposit: bool, click: nat,
          turns: seq<Turn>, total: int)
      reads this
    {
      && |slots| == |s| == WINDOW && cursor.Empty? && Fits(slots, kind, sizes(kind)) && 0 <= total <= amount
      && Apart(src, dst, WINDOW) && Moved(s, slots, kind, total, src, dst)
      && Underway(fate, s, kind, amount, sizes(kind), src, dst, deposit, click, turns, total)
      && clicks == click + TotalClicks(turns)
    }

    /** One turn of a deposit. */
    method DepositTurn(i: nat, kind: Kind, amount: nat, total: nat, stackSize: Count, ghost s: seq<Slot>,
          ghost click: nat, ghost turns: seq<Turn>)
      returns (step: Step, ghost turns': seq<Turn>)
      requires stackSize == sizes(kind) && Going(s, kind, amount, PLAYER, BOX, true, click, turns, total) && open
      requires PLAYER.Has(i) && slots[i].Stack? && slots[i].kind == kind && total < amount
      requires Idle(turns) < 3 && !CutShort(turns)
      modifies this`slots, this`cursor, this`clicks, this`open
      ensures step.Failed? ==> step.error == Closed && Kept(s, slots, cursor, kind)
      ensures step.Failed? <==> !open
      ensures step.Full? ==>
        && Going(s, kind, amount, PLAYER, BOX, true, click, turns, total)
        && SumOver(slots, RoomFor(kind, stackSize), BOX) == 0 && turns' == turns
      ensures step.Done? ==>
        && 0 <= step.moved <= amount - total
        && Going(s, kind, amount, PLAYER, BOX, true, click, turns', total + step.moved)
        && Idle(turns') == (if step.moved == 0 then Idle(turns) + 1 else 0)
        && (CutShort(turns') <==> amount - total < old(slots)[i].count && 0 < step.moved < amount - total)
    {
      turns' := turns;
      ghost var before := slots;
      MovedKept(s, slots, kind, total, PLAYER, BOX);
      ghost var turn;
      step, turn := DepositStack(i, kind, amount - total, stackSize);
      if step.Failed? { KeptTwice(s, before, slots, cursor, kind); }
      if step.Done? {
        MovedTwice(s, before, slots, kind, total, step.moved, PLAYER, BOX);
        TurnTaken(fate, s, before, i, kind, amount, stackSize, PLAYER, BOX, true, click, turns, total, turn);
        turns' := turns + [turn];
      }
    }

    /** Turn after turn, until there is nothing more to do or it gives up. */
    method DepositTurns(kind: Kind, amount: nat, stackSize: Count) returns (r: Result, ghost turns: seq<Turn>)
      requires |slots| == WINDOW && stackSize == sizes(kind) && Fits(slots, kind, stackSize) && cursor.Empty? && open
      modifies this`slots, this`cursor, this`clicks, this`open
      ensures r.Ok? ==>
        && Going(old(slots), kind, amount, PLAYER, BOX, true, old(clicks), turns, r.moved) && open
        && (Exhausted(slots, kind, amount, r.moved, PLAYER, BOX) || Idle(turns) == 3 || CutShort(turns))
      ensures r.Err? ==> r.error == Closed && !open && Kept(old(slots), slots, cursor, kind)
    {
      var remaining, total, failures: int := amount, 0, 0;
      turns := [];
      RoomIsNonNegative(slots, kind, stackSize);
      while remaining > 0
        invariant Going(old(slots), kind, amount, PLAYER, BOX, true, old(clicks), turns, total)
        invariant remaining == amount - total && 0 <= failures < 3 && open
        invariant Idle(turns) == failures && !CutShort(turns)
        decreases remaining, 3 - failures
      {
        var isOpen := StillOpen();
        if !isOpen {
          MovedKept(old(slots), slots, kind, total, PLAYER, BOX);
          return Err(Closed), turns;
        }
        var found := FirstStack(slots, kind, 27, 63);
        if found.None? {
          SumZero(slots, CountOf(kind), 27, 63);
          break;
        }
        var whole := remaining >= slots[found.value].count;
        var step;
        step, turns := DepositTurn(found.value, kind, amount, total, stackSize, old(slots), old(clicks), turns);
        if step.Failed? { return Err(step.error), turns; }
        if step.Full? { break; }
        total, remaining := total + step.moved, remaining - step.moved;
        if step.moved == 0 {
          failures := failures + 1;
          if failures >= 3 { break; }
        } else {
          failures := 0;
          if !whole && remaining > 0 { break; }
        }
      }
      return Ok(total), turns;
    }

    /** Deposits up to `amount` of the kind from the whole bot into the open box. */
    method Deposit(kind: Kind, amount: nat, stackSize: Count) returns (r: Result, ghost turns: seq<Turn>)
      requires |slots| == WINDOW && stackSize == sizes(kind) && Fits(slots, kind, stackSize) && cursor.Empty?
      modifies this`slots, this`cursor, this`clicks, this`open
      ensures r.Ok? ==> 0 <= r.moved <= amount && cursor.Empty? && Moved(old(slots), slots, kind, r.moved, PLAYER, BOX)
      ensures r.Err? ==> r.error == Closed && Kept(old(slots), slots, cursor, kind)
      ensures r.Err? <==> !open
      // What there was to move is moved, unless three turns in a row were idle or right clicks of the last one lost.
      ensures r.Ok? ==>
        && Underway(fate, old(slots), kind, amount, stackSize, PLAYER, BOX, true, old(clicks), turns, r.moved)
        && (r.moved == Least(old(slots), kind, amount, stackSize, PLAYER, BOX) || GaveUp(turns, true))
      ensures r.Ok? && (Lossless() || (NoThreeLost() && amount >= SumOver(old(slots), CountOf(kind), PLAYER))) ==>
        r.moved == Least(old(slots), kind, amount, stackSize, PLAYER, BOX)
    {
      turns := [];
      var isOpen := StillOpen();
      if !isOpen { return Err(Closed), turns; }
      r, turns := DepositTurns(kind, amount, stackSize);
      if r.Ok? { Finished(old(slots), slots, kind, amount, PLAYER, BOX, true, old(clicks), turns, r.moved); }
    }

    // ----- The withdrawal -----

    /** Part of a stack leaves the box: lift it, drop what is wanted in an empty inventory slot, put the rest back. With
        no empty slot it fails, and the stack stays on the cursor. */
    method PartialWithdraw(i: nat, kind: Kind, amount: nat) returns (step: Step)
      requires |slots| == WINDOW && BOX.Has(i) && cursor.Empty? && open
      requires slots[i].Stack? && slots[i].kind == kind && amount < slots[i].count && Fits(slots, kind, sizes(kind))
      modifies this`slots, this`cursor, this`clicks, this`open
      ensures step != Full && (step.Failed? ==> Kept(old(slots), slots, cursor, kind))
      ensures step == Failed(Closed) <==> !open
      ensures open ==> (step == Failed(NoEmptySlot) <==> FirstEmpty(old(slots), 27, 54).None?)
      ensures step == Failed(NoEmptySlot) ==> cursor == old(slots[i]) && slots == old(slots)[i := Empty]
      ensures step.Done? ==>
        && 0 <= step.moved <= amount && cursor.Empty? && Fits(slots, kind, sizes(kind))
        && Moved(old(slots), slots, kind, step.moved, BOX, PLAYER)
        && clicks == old(clicks) + amount && Landed(old(clicks), amount, step.moved)
    {
      ghost var all := slots;
      LeftClick(i);
      Lifted(all, i);
      LiftKeepsEmpties(all, i);
      var isOpen := StillOpen();
      if !isOpen { return Failed(Closed); }
      var target := FirstEmpty(slots, 27, 54);
      if target.None? { return Failed(NoEmptySlot); }
      step := LayAndPutBack(i, target.value, amount, all);
    }

    /** With the stack of slot `i` on the cursor: lays part of it in an empty slot, and the rest where it was. */
    method LayAndPutBack(i: nat, t: nat, amount: nat, ghost all: seq<Slot>) returns (step: Step)
      requires |all| == WINDOW && BOX.Has(i) && PLAYER.Has(t) && all[i].Stack? && all[t].Empty? && amount < all[i].count
      requires slots == all[i := Empty] && cursor == all[i] && Fits(all, all[i].kind, sizes(all[i].kind)) && open
      modifies this`slots, this`cursor, this`clicks, this`open
      ensures step.Failed? ==> step.error == Closed && Kept(all, slots, cursor, all[i].kind)
      ensures step != Full && (step.Failed? <==> !open)
      ensures step.Done? ==>
        && 0 <= step.moved <= amount && cursor.Empty? && Fits(slots, all[i].kind, sizes(all[i].kind))
        && Moved(all, slots, all[i].kind, step.moved, BOX, PLAYER)
        && clicks == old(clicks) + amount && Landed(old(clicks), amount, step.moved)
    {
      ghost var laid := RightClicks(t, amount);
      LaidInEmptySlot(all, i, t, laid);
      var isOpen := StillOpen();
      if !isOpen { return Failed(Closed); }
      var placed := Min(Amount(slots[t]), amount);
      LeftClick(i);
      return Done(placed);
    }

    /** One stack of the box, whole or in part. */
    method WithdrawStack(i: nat, kind: Kind, amount: nat) returns (step: Step, ghost turn: Turn)
      requires |slots| == WINDOW && BOX.Has(i) && cursor.Empty? && amount > 0 && open
      requires slots[i].Stack? && slots[i].kind == kind && Fits(slots, kind, sizes(kind))
      modifies this`slots, this`cursor, this`clicks, this`open
      ensures step != Full && (step == Failed(Closed) <==> !open)
      ensures step.Failed? ==> Kept(old(slots), slots, cursor, kind)
      ensures step == Failed(NoEmptySlot) ==>
        cursor.Stack? && FirstEmpty(slots, 27, 54).None? && !Roomy(old(slots), kind)
      ensures step.Done? ==>
        && 0 <= step.moved <= amount && cursor.Empty? && Fits(slots, kind, sizes(kind))
        && Moved(old(slots), slots, kind, step.moved, BOX, PLAYER)
      ensures step.Done? ==>
        && IsTurn(turn, old(slots), i, kind, amount, sizes(kind), PLAYER, old(clicks))
        && turn.moved == step.moved && turn.IsTrue(fate) && clicks == old(clicks) + turn.Clicks()
      ensures step.Done? && Lossless() && Roomy(old(slots), kind) ==>
        step.moved == Min(amount, old(slots[i]).count) && (step.moved < amount ==> Roomy(slots, kind))
    {
      OrdersCover();
      SumNonNegative(slots, RoomFor(kind, sizes(kind)), 27, 63);
      if FirstEmpty(slots, 27, 54).Some? { EmptySlotTakesAStack(slots, kind, sizes(kind)); }
      if Roomy(slots, kind) {
        RoomySlot(slots, kind, i);
        ShiftStaysRoomy(slots, kind, i, sizes(kind));
      }
      var count := slots[i].count;
      turn := Turn(amount >= count, clicks, Min(amount, count), SumOver(slots, RoomFor(kind, sizes(kind)), PLAYER), 0);
      if amount >= count {
        step := ShiftStep(i, kind, ONTO_PLAYER, BOX, PLAYER);
      } else {
        ghost var click := clicks;
        step := PartialWithdraw(i, kind, amount);
        if step.Done? { PartTurn(turn, click, step.moved); }
      }
      if step.Done? { turn := turn.(moved := step.moved); }
    }

    lemma PartTurn(turn: Turn, click: nat, moved: int)
      requires !turn.whole && turn.click == click && Landed(click, turn.Most(), moved)
      ensures turn.(moved := moved).IsTrue(fate) && (Lossless() ==> moved == turn.Most())
    {
      LandedIs(click, turn.Most(), moved);
      if Lossless() { NoLosses(fate, click, turn.Most()); }
    }

    /** One turn of a withdrawal. */
    method WithdrawTurn(i: nat, kind: Kind, amount: nat, total: nat, ghost s: seq<Slot>, ghost click: nat,
          ghost turns: seq<Turn>)
      returns (step: Step, ghost turns': seq<Turn>)
      requires Going(s, kind, amount, BOX, PLAYER, false, click, turns, total) && open
      requires BOX.Has(i) && slots[i].Stack? && slots[i].kind == kind && total < amount && Idle(turns) < 3
      modifies this`slots, this`cursor, this`clicks, this`open
      ensures step != Full && (step == Failed(Closed) <==> !open)
      ensures step.Failed? ==> Kept(s, slots, cursor, kind)
      ensures step == Failed(NoEmptySlot) ==>
        cursor.Stack? && FirstEmpty(slots, 27, 54).None? && !Roomy(old(slots), kind)
      ensures step.Done? ==>
        && 0 <= step.moved <= amount - total
        && Going(s, kind, amount, BOX, PLAYER, false, click, turns', total + step.moved)
        && Idle(turns') == (if step.moved == 0 then Idle(turns) + 1 else 0)
        && (Lossless() && Roomy(old(slots), kind) ==>
          step.moved > 0 && (step.moved < amount - total ==> Roomy(slots, kind)))
    {
      turns' := turns;
      ghost var before := slots;
      MovedKept(s, slots, kind, total, BOX, PLAYER);
      ghost var turn;
      step, turn := WithdrawStack(i, kind, amount - total);
      if step.Failed? { KeptTwice(s, before, slots, cursor, kind); }
      if step.Done? {
        MovedTwice(s, before, slots, kind, total, step.moved, BOX, PLAYER);
        TurnTaken(fate, s, before, i, kind, amount, sizes(kind), BOX, PLAYER, false, click, turns, total, turn);
        turns' := turns + [turn];
      }
    }

    /** Turn after turn, until there is nothing more to do or it gives up. */
    method WithdrawTurns(kind: Kind, amount: nat) returns (r: Result, ghost turns: seq<Turn>)
      requires |slots| == WINDOW && Fits(slots, kind, sizes(kind)) && cursor.Empty?
      modifies this`slots, this`cursor, this`clicks, this`open
      ensures r.Ok? ==>
        && Going(old(slots), kind, amount, BOX, PLAYER, false, old(clicks), turns, r.moved) && (amount > 0 ==> open)
        && (Exhausted(slots, kind, amount, r.moved, BOX, PLAYER) || Idle(turns) == 3)
      ensures r.Err? ==> Kept(old(slots), slots, cursor, kind) && (r.error == Closed <==> !open)
      ensures r == Err(NoEmptySlot) ==> cursor.Stack? && FirstEmpty(slots, 27, 54).None?
      ensures Lossless() && Roomy(old(slots), kind) ==>
        if r.Ok? then r.moved == amount || SumOver(slots, CountOf(kind), BOX) == 0 else r.error == Closed
    {
      var remaining, total, failures: int := amount, 0, 0;
      turns := [];
      SumNonNegative(slots, RoomFor(kind, sizes(kind)), 27, 63);
      while remaining > 0
        invariant Going(old(slots), kind, amount, BOX, PLAYER, false, old(clicks), turns, total)
        invariant remaining == amount - total && 0 <= failures < 3 && Idle(turns) == failures
        invariant open || (turns == [] && total == 0)
        invariant Lossless() && Roomy(old(slots), kind) ==> failures == 0 && (remaining > 0 ==> Roomy(slots, kind))
        decreases remaining, 3 - failures
      {
        var isOpen := StillOpen();
        if !isOpen {
          MovedKept(old(slots), slots, kind, total, BOX, PLAYER);
          return Err(Closed), turns;
        }
        var found := FirstStack(slots, kind, 0, 27);
        if found.None? {
          SumZero(slots, CountOf(kind), 0, 27);
          break;
        }
        var step;
        step, turns := WithdrawTurn(found.value, kind, amount, total, old(slots), old(clicks), turns);
        if step.Failed? { return Err(step.error), turns; }
        total, remaining := total + step.moved, remaining - step.moved;
        if step.moved == 0 {
          failures := failures + 1;
          if failures >= 3 { break; }
        } else {
          failures := 0;
        }
      }
      return Ok(total), turns;
    }

    /** Withdraws up to `amount` of the kind from the open box. */
    method Withdraw(kind: Kind, amount: nat) returns (r: Result, ghost turns: seq<Turn>)
      requires |slots| == WINDOW && Fits(slots, kind, sizes(kind)) && cursor.Empty?
      modifies this`slots, this`cursor, this`clicks, this`open
      ensures r.Ok? ==> 0 <= r.moved <= amount && cursor.Empty? && Moved(old(slots), slots, kind, r.moved, BOX, PLAYER)
      ensures r.Err? ==> Kept(old(slots), slots, cursor, kind)
      ensures amount > 0 ==> (r == Err(Closed) <==> !open)
      // What there was to move is moved, unless three turns in a row were idle.
      ensures r.Ok? ==>
        && Underway(fate, old(slots), kind, amount, sizes(kind), BOX, PLAYER, false, old(clicks), turns, r.moved)
        && (r.moved == Least(old(slots), kind, amount, sizes(kind), BOX, PLAYER) || GaveUp(turns, false))
      ensures r.Ok? && (Lossless() || (NoThreeLost() && amount >= SumOver(old(slots), CountOf(kind), BOX))) ==>
        r.moved == Least(old(slots), kind, amount, sizes(kind), BOX, PLAYER)
      // With an empty slot for each stack there is room, and nothing but a closed window makes it fail.
      ensures Lossless() && Roomy(old(slots), kind) ==>
        if r.Ok? then r.moved == Min(amount, SumOver(old(slots), CountOf(kind), BOX)) else r.error == Closed
      // Out of empty slots, the lifted stack is left on the cursor.
      ensures r == Err(NoEmptySlot) ==> cursor.Stack? && FirstEmpty(slots, 27, 54).None?
    {
      r, turns := WithdrawTurns(kind, amount);
      if r.Ok? {
        RoomAfterMove(old(slots), slots, kind, r.moved, sizes(kind), BOX, PLAYER);
        Finished(old(slots), slots, kind, amount, BOX, PLAYER, false, old(clicks), turns, r.moved);
      }
    }
  }

  lemma {:induction false} LiftKeepsEmpties(s: seq<Slot>, i: nat)
    requires |s| == WINDOW && BOX.Has(i)
    ensures FirstEmpty(s[i := Empty], 27, 54) == FirstEmpty(s, 27, 54)
  {
    SameEmpties(s, s[i := Empty], 27, 54);
  }

  lemma {:induction false} SameEmpties(s: seq<Slot>, s': seq<Slot>, lo: nat, hi: nat)
    requires hi <= |s| == |s'| && forall i :: lo <= i < hi ==> s[i] == s'[i]
    ensures FirstEmpty(s, lo, hi) == FirstEmpty(s', lo, hi)
    decreases hi - lo
  {
    if lo < hi { SameEmpties(s, s', lo + 1, hi); }
  }

  /** The sum of the growths seen in the box between two snapshots. */
  method CountGrowth(all: seq<Slot>, after: seq<Slot>, kind: Kind, stackSize: Count) returns (delta: int)
    requires |all| == |after| == WINDOW && forall i :: 0 <= i < 27 ==> GrewSlot(all[i], after[i], kind)
    requires forall i :: 0 <= i < 27 && RoomIn(all[i], kind, stackSize) <= 0 ==> after[i] == all[i]
    ensures delta == SumOver(after, CountOf(kind), BOX) - SumOver(all, CountOf(kind), BOX)
  {
    delta := 0;
    for i := 0 to 27
      invariant delta == Sum(after, CountOf(kind), 0, i) - Sum(all, CountOf(kind), 0, i)
    {
      if RoomIn(all[i], kind, stackSize) > 0 {
        var grown := Amount(after[i]) - Amount(all[i]);
        if grown > 0 { delta := delta + grown; }
      }
    }
  }
}
