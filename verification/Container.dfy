/** Slots, the cursor, and what the server does with a left, right or shift click on an open window. */
module Container {
  import opened Basics

  /** A normalised item id. */
  type Kind = nat
  type Count = n: int | n > 0 witness 1
  datatype Slot = Empty | Stack(kind: Kind, count: Count)
  /** How many of a kind one slot holds. */
  type Sizes = Kind -> Count

  function CountIn(slot: Slot, kind: Kind): nat {
    if slot.Stack? && slot.kind == kind then slot.count else 0
  }

  /** The slot once `n` more of a kind lie in it. */
  function Put(slot: Slot, kind: Kind, n: nat): Slot {
    if n == 0 then slot else Stack(kind, CountIn(slot, kind) + n)
  }

  /** How many more of a kind a slot takes. */
  function RoomIn(slot: Slot, kind: Kind, size: Count): int {
    if slot.Empty? then size else if slot.kind == kind then size - slot.count else 0
  }

  // ----- Sums over a range of slots -----

  datatype Measure = CountOf(kind: Kind) | RoomFor(kind: Kind, size: Count) | EmptySlots | StacksOf(kind: Kind)

  function Weigh(m: Measure, slot: Slot): int {
    match m
    case CountOf(kind) => CountIn(slot, kind)
    case RoomFor(kind, size) => RoomIn(slot, kind, size)
    case EmptySlots => if slot.Empty? then 1 else 0
    case StacksOf(kind) => if slot.Stack? && slot.kind == kind then 1 else 0
  }

  function Sum(s: seq<Slot>, m: Measure, lo: nat, hi: nat): int
    requires hi <= |s|
  {
    if hi <= lo then 0 else Sum(s, m, lo, hi - 1) + Weigh(m, s[hi - 1])
  }

  lemma {:induction false} SumUpdate(s: seq<Slot>, m: Measure, lo: nat, hi: nat, i: nat, x: Slot)
    requires hi <= |s| && i < |s|
    ensures Sum(s[i := x], m, lo, hi) == Sum(s, m, lo, hi) + if lo <= i < hi then Weigh(m, x) - Weigh(m, s[i]) else 0
  {
    if lo < hi { SumUpdate(s, m, lo, hi - 1, i, x); }
  }

  lemma {:induction false} SumSame(s: seq<Slot>, s': seq<Slot>, m: Measure, lo: nat, hi: nat)
    requires hi <= |s| == |s'| && forall i :: lo <= i < hi ==> Weigh(m, s'[i]) == Weigh(m, s[i])
    ensures Sum(s', m, lo, hi) == Sum(s, m, lo, hi)
  {
    if lo < hi { SumSame(s, s', m, lo, hi - 1); }
  }

  lemma {:induction false} SumZero(s: seq<Slot>, m: Measure, lo: nat, hi: nat)
    requires hi <= |s| && forall i :: lo <= i < hi ==> Weigh(m, s[i]) == 0
    ensures Sum(s, m, lo, hi) == 0
  {
    if lo < hi { SumZero(s, m, lo, hi - 1); }
  }

  lemma {:induction false} SumAtLeast(s: seq<Slot>, m: Measure, lo: nat, hi: nat, i: nat)
    requires lo <= i < hi <= |s| && forall j :: lo <= j < hi ==> Weigh(m, s[j]) >= 0
    ensures Sum(s, m, lo, hi) >= Weigh(m, s[i])
    decreases hi
  {
    SumNonNegative(s, m, lo, hi - 1);
    if i < hi - 1 { SumAtLeast(s, m, lo, hi - 1, i); }
  }

  lemma {:induction false} SumNonNegative(s: seq<Slot>, m: Measure, lo: nat, hi: nat)
    requires hi <= |s| && forall j :: lo <= j < hi ==> Weigh(m, s[j]) >= 0
    ensures Sum(s, m, lo, hi) >= 0
  {
    if lo < hi { SumNonNegative(s, m, lo, hi - 1); }
  }

  lemma {:induction false} SumSplit(s: seq<Slot>, m: Measure, lo: nat, mid: nat, hi: nat)
    requires lo <= mid <= hi <= |s|
    ensures Sum(s, m, lo, hi) == Sum(s, m, lo, mid) + Sum(s, m, mid, hi)
    decreases hi
  {
    if mid < hi { SumSplit(s, m, lo, mid, hi - 1); }
  }

  // ----- Clicks -----

  /** No stack of the kind is over its size. */
  predicate Fits(s: seq<Slot>, kind: Kind, size: Count) {
    forall i :: 0 <= i < |s| && s[i].Stack? && s[i].kind == kind ==> s[i].count <= size
  }

  /** Left click: lift, put down, merge, or swap. Returns the slot and the cursor. */
  function LeftClicked(slot: Slot, cursor: Slot, sizes: Sizes): (r: (Slot, Slot)) {
    if cursor.Stack? && (slot.Empty? || slot.kind == cursor.kind) then
      var n := Min(cursor.count, RoomIn(slot, cursor.kind, sizes(cursor.kind)));
      if n <= 0 then (slot, cursor)
      else (Put(slot, cursor.kind, n), if n == cursor.count then Empty else Stack(cursor.kind, cursor.count - n))
    else (cursor, slot)
  }

  /** Right click: put one down, swap, or lift the larger half. */
  function RightClicked(slot: Slot, cursor: Slot, sizes: Sizes): (r: (Slot, Slot)) {
    if cursor.Stack? && (slot.Empty? || slot.kind == cursor.kind) then
      if RoomIn(slot, cursor.kind, sizes(cursor.kind)) <= 0 then (slot, cursor)
      else (Put(slot, cursor.kind, 1), if cursor.count == 1 then Empty else Stack(cursor.kind, cursor.count - 1))
    else if cursor.Stack? || slot.Empty? then (cursor, slot)
    else
      var half := (slot.count + 1) / 2;
      (if half == slot.count then Empty else Stack(slot.kind, slot.count - half), Stack(slot.kind, half))
  }

  /** A click moves items between the slot and the cursor and neither makes nor loses any. */
  lemma ClicksConserve(slot: Slot, cursor: Slot, sizes: Sizes, kind: Kind)
    ensures
      var (a, b) := LeftClicked(slot, cursor, sizes);
      CountIn(a, kind) + CountIn(b, kind) == CountIn(slot, kind) + CountIn(cursor, kind)
    ensures
      var (a, b) := RightClicked(slot, cursor, sizes);
      CountIn(a, kind) + CountIn(b, kind) == CountIn(slot, kind) + CountIn(cursor, kind)
  {
  }

  // ----- Shift click: onto like stacks first, then into empty slots -----

  /** What one pass of a shift click puts in a slot. */
  function Share(slot: Slot, kind: Kind, n: nat, size: Count, empties: bool): (share: nat)
    ensures share <= n
  {
    if slot.Empty? == empties then
      var room := RoomIn(slot, kind, size);
      if room <= 0 then 0 else Min(n, room)
    else 0
  }

  /** One pass over the destination slots, in `order`: the slots, and what is left over. */
  function Pour(s: seq<Slot>, order: seq<nat>, kind: Kind, n: nat, size: Count, empties: bool): (r: (seq<Slot>, nat))
    requires forall i :: 0 <= i < |order| ==> order[i] < |s|
    ensures |r.0| == |s| && r.1 <= n
    decreases |order|
  {
    if order == [] || n == 0 then (s, n)
    else
      var i := order[0];
      var share := Share(s[i], kind, n, size, empties);
      Pour(s[i := Put(s[i], kind, share)], order[1..], kind, n - share, size, empties)
  }

  /** Both passes: the slots, and what is left over. */
  function PourBoth(s: seq<Slot>, order: seq<nat>, kind: Kind, n: nat, size: Count): (r: (seq<Slot>, nat))
    requires forall i :: 0 <= i < |order| ==> order[i] < |s|
    ensures |r.0| == |s| && r.1 <= n
  {
    var merged := Pour(s, order, kind, n, size, false);
    Pour(merged.0, order, kind, merged.1, size, true)
  }

  function ShiftClicked(s: seq<Slot>, from: nat, order: seq<nat>, size: Count): (r: seq<Slot>)
    requires from < |s| && forall i :: 0 <= i < |order| ==> order[i] < |s|
    ensures |r| == |s|
  {
    if s[from].Empty? then s
    else
      var kind := s[from].kind;
      var (filled, left) := PourBoth(s, order, kind, s[from].count, size);
      filled[from := if left == 0 then Empty else Stack(kind, left)]
  }

  predicate GrewSlot(a: Slot, b: Slot, kind: Kind) {
    a == b || (b.Stack? && b.kind == kind && (a.Stack? ==> a.kind == kind) && CountIn(a, kind) < b.count)
  }

  /** Slot by slot, one pass changes nothing outside the range and only adds the kind inside it. */
  ghost predicate Grew(s: seq<Slot>, s': seq<Slot>, kind: Kind, lo: nat, hi: nat) {
    && |s'| == |s|
    && (forall i :: 0 <= i < |s| && !(lo <= i < hi) ==> s'[i] == s[i])
    && (forall i :: 0 <= i < |s| ==> GrewSlot(s[i], s'[i], kind))
  }

  predicate Within(order: seq<nat>, lo: nat, hi: nat) { forall i :: 0 <= i < |order| ==> lo <= order[i] < hi }

  lemma GrewTwice(s: seq<Slot>, s': seq<Slot>, s'': seq<Slot>, kind: Kind, lo: nat, hi: nat)
    requires Grew(s, s', kind, lo, hi) && Grew(s', s'', kind, lo, hi)
    ensures Grew(s, s'', kind, lo, hi)
  {
  }

  /** `n` more of the kind lie in the range, and that much less fits. */
  ghost predicate Poured(s: seq<Slot>, s': seq<Slot>, kind: Kind, n: int, size: Count, lo: nat, hi: nat)
    requires hi <= |s|
  {
    && Grew(s, s', kind, lo, hi) && Fits(s', kind, size)
    && Sum(s', CountOf(kind), lo, hi) == Sum(s, CountOf(kind), lo, hi) + n
    && Sum(s', RoomFor(kind, size), lo, hi) == Sum(s, RoomFor(kind, size), lo, hi) - n
  }

  lemma ShareIsPoured(s: seq<Slot>, i: nat, kind: Kind, n: nat, size: Count, empties: bool, lo: nat, hi: nat)
    requires lo <= i < hi <= |s| && Fits(s, kind, size)
    ensures
      var share := Share(s[i], kind, n, size, empties);
      Poured(s, s[i := Put(s[i], kind, share)], kind, share, size, lo, hi)
  {
    var x := Put(s[i], kind, Share(s[i], kind, n, size, empties));
    SumUpdate(s, CountOf(kind), lo, hi, i, x);
    SumUpdate(s, RoomFor(kind, size), lo, hi, i, x);
  }

  lemma PouredTwice(s: seq<Slot>, s': seq<Slot>, s'': seq<Slot>, kind: Kind, n: int, m: int, size: Count, lo: nat,
        hi: nat)
    requires hi <= |s| == |s'|
    requires Poured(s, s', kind, n, size, lo, hi) && Poured(s', s'', kind, m, size, lo, hi)
    ensures Poured(s, s'', kind, n + m, size, lo, hi)
  {
    GrewTwice(s, s', s'', kind, lo, hi);
  }

  lemma PouredLater(s: seq<Slot>, next: seq<Slot>, rest: seq<nat>, kind: Kind, n: nat, share: nat, size: Count,
        empties: bool, lo: nat, hi: nat)
    requires hi <= |s| && share <= n && (forall i :: 0 <= i < |rest| ==> rest[i] < |next|)
    requires Poured(s, next, kind, share, size, lo, hi)
    requires var (s', left) := Pour(next, rest, kind, n - share, size, empties);
      Poured(next, s', kind, n - share - left, size, lo, hi)
    ensures var (s', left) := Pour(next, rest, kind, n - share, size, empties);
      Poured(s, s', kind, n - left, size, lo, hi)
  {
    var (s', left) := Pour(next, rest, kind, n - share, size, empties);
    PouredTwice(s, next, s', kind, share, n - share - left, size, lo, hi);
  }

  lemma {:induction false} PourGrows(s: seq<Slot>, order: seq<nat>, kind: Kind, n: nat, size: Count, empties: bool,
        lo: nat, hi: nat)
    requires hi <= |s| && Within(order, lo, hi) && Fits(s, kind, size)
    ensures
      var (s', left) := Pour(s, order, kind, n, size, empties);
      Poured(s, s', kind, n - left, size, lo, hi)
    decreases |order|
  {
    if order != [] && n != 0 {
      var i, rest := order[0], order[1..];
      assert Within(rest, lo, hi);
      var share := Share(s[i], kind, n, size, empties);
      var next := s[i := Put(s[i], kind, share)];
      ShareIsPoured(s, i, kind, n, size, empties, lo, hi);
      PourGrows(next, rest, kind, n - share, size, empties, lo, hi);
      PouredLater(s, next, rest, kind, n, share, size, empties, lo, hi);
      assert Pour(s, order, kind, n, size, empties) == Pour(next, rest, kind, n - share, size, empties);
    } else {
      assert Pour(s, order, kind, n, size, empties) == (s, n);
    }
  }

  /** Something is left over only when every slot of the pass is full. */
  lemma {:induction false} PourFills(s: seq<Slot>, order: seq<nat>, kind: Kind, n: nat, size: Count, empties: bool,
        i: nat)
    requires (forall j :: 0 <= j < |order| ==> order[j] < |s|) && Fits(s, kind, size) && i < |s|
    ensures
      var (s', left) := Pour(s, order, kind, n, size, empties);
      && (left > 0 && i in order && s[i].Empty? == empties ==> RoomIn(s'[i], kind, size) == 0)
      && (RoomIn(s[i], kind, size) == 0 ==> s'[i] == s[i])
      && (s[i].Empty? && !empties ==> s'[i].Empty?)
    decreases |order|
  {
    if order != [] && n != 0 {
      var x := Put(s[order[0]], kind, Share(s[order[0]], kind, n, size, empties));
      PourFills(s[order[0] := x], order[1..], kind, n - Share(s[order[0]], kind, n, size, empties), size, empties, i);
    }
  }

  /** Pouring at most one stack takes at most one empty slot. */
  lemma {:induction false} PourTakesOneSlot(s: seq<Slot>, order: seq<nat>, kind: Kind, n: nat, size: Count,
        empties: bool, lo: nat, hi: nat)
    requires hi <= |s| && n <= size && forall j :: 0 <= j < |order| ==> order[j] < |s|
    ensures
      var (s', left) := Pour(s, order, kind, n, size, empties);
      Sum(s', EmptySlots, lo, hi) >= Sum(s, EmptySlots, lo, hi) - if empties && n > 0 then 1 else 0
    decreases |order|
  {
    if order != [] && n != 0 {
      var i := order[0];
      var share := Share(s[i], kind, n, size, empties);
      SumUpdate(s, EmptySlots, lo, hi, i, Put(s[i], kind, share));
      PourTakesOneSlot(s[i := Put(s[i], kind, share)], order[1..], kind, n - share, size, empties, lo, hi);
    }
  }

  // ----- Movements of one kind between two ranges -----

  datatype Range = Range(lo: nat, hi: nat) {
    predicate Has(i: int) { lo <= i < hi }
  }

  predicate Apart(a: Range, b: Range, n: nat) {
    a.lo <= a.hi <= n && b.lo <= b.hi <= n && (a.hi <= b.lo || b.hi <= a.lo)
  }

  function SumOver(s: seq<Slot>, m: Measure, r: Range): int
    requires r.hi <= |s|
  {
    Sum(s, m, r.lo, r.hi)
  }

  /** Exactly `n` of the kind went from one range to the other: no slot elsewhere and no stack of another kind
      changed. */
  ghost predicate Moved(s: seq<Slot>, s': seq<Slot>, kind: Kind, n: int, src: Range, dst: Range) {
    && |s'| == |s| && Apart(src, dst, |s|)
    && (forall i :: 0 <= i < |s| && !src.Has(i) && !dst.Has(i) ==> s'[i] == s[i])
    && (forall i :: src.Has(i) ==> GrewSlot(s'[i], s[i], kind))
    && (forall i :: dst.Has(i) ==> GrewSlot(s[i], s'[i], kind))
    && SumOver(s', CountOf(kind), src) == SumOver(s, CountOf(kind), src) - n
    && SumOver(s', CountOf(kind), dst) == SumOver(s, CountOf(kind), dst) + n
  }

  lemma MovedTwice(s: seq<Slot>, s': seq<Slot>, s'': seq<Slot>, kind: Kind, n: int, n': int, src: Range, dst: Range)
    requires Moved(s, s', kind, n, src, dst) && Moved(s', s'', kind, n', src, dst)
    ensures Moved(s, s'', kind, n + n', src, dst)
  {
  }

  /** A movement conserves every kind over the whole window, and touches no stack of another kind. */
  lemma MovedConserves(s: seq<Slot>, s': seq<Slot>, kind: Kind, n: int, src: Range, dst: Range, other: Kind)
    requires Moved(s, s', kind, n, src, dst)
    ensures Sum(s', CountOf(other), 0, |s|) == Sum(s, CountOf(other), 0, |s|)
    ensures forall i :: 0 <= i < |s| && s[i].Stack? && s[i].kind != kind ==> s'[i] == s[i]
  {
    if other != kind {
      SumSame(s, s', CountOf(other), 0, |s|);
    } else {
      var low, high := if src.hi <= dst.lo then src else dst, if src.hi <= dst.lo then dst else src;
      SplitInFive(s, CountOf(kind), low, high);
      SplitInFive(s', CountOf(kind), low, high);
      SumSame(s, s', CountOf(kind), 0, low.lo);
      SumSame(s, s', CountOf(kind), low.hi, high.lo);
      SumSame(s, s', CountOf(kind), high.hi, |s|);
    }
  }

  lemma SplitInFive(s: seq<Slot>, m: Measure, a: Range, b: Range)
    requires a.lo <= a.hi <= b.lo <= b.hi <= |s|
    ensures Sum(s, m, 0, |s|) ==
      Sum(s, m, 0, a.lo) + SumOver(s, m, a) + Sum(s, m, a.hi, b.lo) + SumOver(s, m, b) + Sum(s, m, b.hi, |s|)
  {
    SumSplit(s, m, 0, b.hi, |s|);
    SumSplit(s, m, 0, b.lo, b.hi);
    SumSplit(s, m, 0, a.hi, b.lo);
    SumSplit(s, m, 0, a.lo, a.hi);
  }

  lemma PourBothGrows(s: seq<Slot>, order: seq<nat>, kind: Kind, n: nat, size: Count, lo: nat, hi: nat)
    requires hi <= |s| && Within(order, lo, hi) && Fits(s, kind, size)
    ensures
      var (s', left) := PourBoth(s, order, kind, n, size);
      Poured(s, s', kind, n - left, size, lo, hi)
  {
    var (merged, rest) := Pour(s, order, kind, n, size, false);
    PourGrows(s, order, kind, n, size, false, lo, hi);
    PourGrows(merged, order, kind, rest, size, true, lo, hi);
    var (s', left) := PourBoth(s, order, kind, n, size);
    PouredTwice(s, merged, s', kind, n - rest, rest - left, size, lo, hi);
  }

  lemma LeftOverMeansFull(s: seq<Slot>, order: seq<nat>, kind: Kind, n: nat, size: Count, lo: nat, hi: nat, i: nat)
    requires hi <= |s| && Within(order, lo, hi) && Fits(s, kind, size) && i < |s| && i in order
    ensures var (s', left) := PourBoth(s, order, kind, n, size); left > 0 ==> RoomIn(s'[i], kind, size) == 0
  {
    var (merged, rest) := Pour(s, order, kind, n, size, false);
    PourGrows(s, order, kind, n, size, false, lo, hi);
    PourFills(s, order, kind, n, size, false, i);
    PourFills(merged, order, kind, rest, size, true, i);
  }

  lemma NothingLeftUnlessFull(s: seq<Slot>, order: seq<nat>, kind: Kind, n: nat, size: Count, dst: Range)
    requires dst.hi <= |s| && Within(order, dst.lo, dst.hi) && (forall i: nat :: dst.Has(i) ==> i in order)
    requires Fits(s, kind, size)
    ensures
      var (s', left) := PourBoth(s, order, kind, n, size);
      left == 0 || SumOver(s', RoomFor(kind, size), dst) == 0
  {
    var (s', left) := PourBoth(s, order, kind, n, size);
    if left > 0 {
      forall i: nat | dst.Has(i) ensures RoomIn(s'[i], kind, size) == 0 {
        LeftOverMeansFull(s, order, kind, n, size, dst.lo, dst.hi, i);
      }
      SumZero(s', RoomFor(kind, size), dst.lo, dst.hi);
    }
  }

  /** The stack lost what the other range gained. */
  lemma TakingFromSource(s: seq<Slot>, filled: seq<Slot>, from: nat, left: nat, src: Range, dst: Range)
    requires Apart(src, dst, |s|) && src.Has(from) && s[from].Stack? && left <= s[from].count
    requires Grew(s, filled, s[from].kind, dst.lo, dst.hi)
    requires SumOver(filled, CountOf(s[from].kind), dst) ==
      SumOver(s, CountOf(s[from].kind), dst) + s[from].count - left
    ensures
      var rest := if left == 0 then Empty else Stack(s[from].kind, left);
      Moved(s, filled[from := rest], s[from].kind, s[from].count - left, src, dst)
  {
    var last := if left == 0 then Empty else Stack(s[from].kind, left);
    SumUpdate(filled, CountOf(s[from].kind), src.lo, src.hi, from, last);
    SumUpdate(filled, CountOf(s[from].kind), dst.lo, dst.hi, from, last);
    SumSame(s, filled, CountOf(s[from].kind), src.lo, src.hi);
  }

  predicate Ways(order: seq<nat>, dst: Range) {
    Within(order, dst.lo, dst.hi) && forall i: nat :: dst.lo <= i < dst.hi ==> i in order
  }

  /** A shift click moves as much of the stack as the other side has room for. */
  lemma ShiftMoves(s: seq<Slot>, from: nat, order: seq<nat>, size: Count, src: Range, dst: Range) returns (n: nat)
    requires Apart(src, dst, |s|) && src.Has(from) && s[from].Stack? && Fits(s, s[from].kind, size) && Ways(order, dst)
    ensures var room := SumOver(s, RoomFor(s[from].kind, size), dst); n == Min(s[from].count, room)
    ensures
      var s', kind := ShiftClicked(s, from, order, size), s[from].kind;
      && Moved(s, s', kind, n, src, dst) && Fits(s', kind, size)
      && CountIn(s'[from], kind) == s[from].count - n
      && (forall i :: src.Has(i) && i != from ==> s'[i] == s[i])
      && SumOver(s', RoomFor(kind, size), dst) == SumOver(s, RoomFor(kind, size), dst) - n
  {
    var kind, c := s[from].kind, s[from].count;
    var (filled, left) := PourBoth(s, order, kind, c, size);
    n := c - left;
    PourBothGrows(s, order, kind, c, size, dst.lo, dst.hi);
    NothingLeftUnlessFull(s, order, kind, c, size, dst);
    SumNonNegative(filled, RoomFor(kind, size), dst.lo, dst.hi);
    TakingFromSource(s, filled, from, left, src, dst);
    SumUpdate(filled, RoomFor(kind, size), dst.lo, dst.hi, from, if left == 0 then Empty else Stack(kind, left));
  }

  lemma ShiftTakesOneSlot(s: seq<Slot>, from: nat, order: seq<nat>, size: Count, r: Range)
    requires from < |s| && r.hi <= |s| && !r.Has(from) && s[from].Stack? && s[from].count <= size
    requires forall i :: 0 <= i < |order| ==> order[i] < |s|
    ensures SumOver(ShiftClicked(s, from, order, size), EmptySlots, r) >= SumOver(s, EmptySlots, r) - 1
  {
    var kind, c := s[from].kind, s[from].count;
    var (merged, rest) := Pour(s, order, kind, c, size, false);
    var (filled, left) := Pour(merged, order, kind, rest, size, true);
    PourTakesOneSlot(s, order, kind, c, size, false, r.lo, r.hi);
    PourTakesOneSlot(merged, order, kind, rest, size, true, r.lo, r.hi);
    SumUpdate(filled, EmptySlots, r.lo, r.hi, from, if left == 0 then Empty else Stack(kind, left));
  }
}
