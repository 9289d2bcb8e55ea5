/** Walking the shulker boxes of a chest (src/bot/chest_io.rs). A box is seen as how many of the item it holds and how
    many more it takes; one visit is a round trip with a transfer in the middle. */
module ChestScan {
  import opened Basics

  const SLOTS: nat := 54
  const BOX_SLOTS: nat := 27

  datatype ChestSlot = NoBox | Box(stock: nat, room: nat)
  datatype Error = VisitFailed | NoShulkers | BotEmpty | NothingMoved | Incomplete
  datatype Result<T> = Ok(value: T) | Err(error: Error)
  datatype Direction = Withdraw | Deposit

  function Stock(s: seq<ChestSlot>, hi: nat): nat
    requires hi <= |s|
  {
    if hi == 0 then 0 else Stock(s, hi - 1) + if s[hi - 1].Box? then s[hi - 1].stock else 0
  }

  function Room(s: seq<ChestSlot>, hi: nat): nat
    requires hi <= |s|
  {
    if hi == 0 then 0 else Room(s, hi - 1) + if s[hi - 1].Box? then s[hi - 1].room else 0
  }

  function Taken(b: ChestSlot, n: nat): ChestSlot
    requires b.Box? && n <= b.stock
  {
    Box(b.stock - n, b.room + n)
  }

  function Added(b: ChestSlot, n: nat): ChestSlot
    requires b.Box? && n <= b.room
  {
    Box(b.stock + n, b.room - n)
  }

  lemma {:induction false} SumsAfter(s: seq<ChestSlot>, hi: nat, i: nat, x: ChestSlot)
    requires hi <= |s| && i < |s| && s[i].Box? && x.Box?
    ensures Stock(s[i := x], hi) == Stock(s, hi) + if i < hi then x.stock - s[i].stock else 0
    ensures Room(s[i := x], hi) == Room(s, hi) + if i < hi then x.room - s[i].room else 0
  {
    if hi > 0 { SumsAfter(s, hi - 1, i, x); }
  }

  lemma {:induction false} NoStock(s: seq<ChestSlot>, hi: nat)
    requires hi <= |s| && forall i :: 0 <= i < hi && s[i].Box? ==> s[i].stock == 0
    ensures Stock(s, hi) == 0
  {
    if hi > 0 { NoStock(s, hi - 1); }
  }

  /** Same boxes in the same slots. */
  ghost predicate SameLayout(s: seq<ChestSlot>, s': seq<ChestSlot>) {
    |s'| == |s| && forall i :: 0 <= i < |s| ==>
      (s'[i].Box? <==> s[i].Box?) && (s[i].Box? ==> s'[i].stock + s'[i].room == s[i].stock + s[i].room)
  }

  /** Every slot is as it was, count and all, or its reported count is its stock. */
  ghost predicate Told(s: seq<ChestSlot>, counts: seq<int>, s': seq<ChestSlot>, counts': seq<int>) {
    && |s| == |s'| == |counts| == |counts'|
    && forall i :: 0 <= i < |s| ==>
      (s'[i] == s[i] && counts'[i] == counts[i]) || (s'[i].Box? && counts'[i] == s'[i].stock)
  }

  /** And so is every slot but one, where a visit broke off. */
  ghost predicate ToldBut(s: seq<ChestSlot>, counts: seq<int>, s': seq<ChestSlot>, counts': seq<int>, bad: nat) {
    && |s| == |s'| == |counts| == |counts'|
    && forall i :: 0 <= i < |s| && i != bad ==>
      (s'[i] == s[i] && counts'[i] == counts[i]) || (s'[i].Box? && counts'[i] == s'[i].stock)
  }

  // ----- The withdrawal, as a function of the scan's state -----

  /** How many of the wanted items a visit moves, by its number, if the bot has room for them. */
  type Service = (nat, nat) -> nat

  /** Each visit with something to move, and room for it, moves something. */
  ghost predicate Serves(served: Service) { forall n, wanted: nat :: wanted > 0 ==> served(n, wanted) > 0 }

  /** `botRoom` is how many more of the item the bot takes, `empty` the slots confirmed drained. */
  datatype ScanState = ScanState(
    boxes: seq<ChestSlot>, counts: seq<int>, empty: set<nat>, remaining: nat, botRoom: nat, visits: nat, opened': bool)
  {
    ghost predicate Valid() {
      && |boxes| == |counts| == SLOTS
      && forall i :: i in empty ==> i < SLOTS && boxes[i].Box? && boxes[i].stock == 0
    }

    /** The loop goes on: something remains, and the last pass opened a box. */
    predicate Running() { remaining > 0 && opened' }

    /** The bot can take what is there to withdraw. */
    predicate Enough()
      requires |boxes| == SLOTS
    {
      botRoom >= Min(remaining, Stock(boxes, SLOTS))
    }
  }

  function Moves(st: ScanState, stock: nat, served: Service): (n: nat)
    ensures n <= st.remaining && n <= stock && n <= st.botRoom
  {
    var wanted := Min(st.remaining, stock);
    Min(Min(served(st.visits, wanted), wanted), st.botRoom)
  }

  /** One slot of a pass: nothing when nothing remains, without a box, or with one confirmed drained. */
  function VisitSlot(st: ScanState, i: nat, served: Service): ScanState
    requires i < |st.boxes| == |st.counts|
  {
    if st.remaining == 0 || st.boxes[i].NoBox? || i in st.empty then st
    else
      var b := st.boxes[i];
      var n := Moves(st, b.stock, served);
      ScanState(st.boxes[i := Taken(b, n)], st.counts[i := b.stock - n],
        if n == b.stock then st.empty + {i} else st.empty,
        st.remaining - n, st.botRoom - n, st.visits + 1, true)
  }

  function PassUpTo(st: ScanState, hi: nat, served: Service): (st': ScanState)
    requires hi <= |st.boxes| == |st.counts|
    ensures |st'.boxes| == |st'.counts| == |st.boxes|
  {
    if hi == 0 then st.(opened' := false) else VisitSlot(PassUpTo(st, hi - 1, served), hi - 1, served)
  }

  function OnePass(st: ScanState, served: Service): ScanState
    requires |st.boxes| == |st.counts| == SLOTS
  {
    PassUpTo(st, SLOTS, served)
  }

  /** The state after `k` passes, or where the loop ended before. */
  function Passes(st: ScanState, k: nat, served: Service): (st': ScanState)
    requires |st.boxes| == |st.counts| == SLOTS
    ensures |st'.boxes| == |st'.counts| == SLOTS
  {
    if k == 0 then st
    else
      var st' := Passes(st, k - 1, served);
      if st'.Running() then OnePass(st', served) else st'
  }

  /** What the visits up to a slot keep: what left the boxes is what no longer remains, came off the bot's room, and is
      reported; drained slots stay drained; and the slots ahead are untouched. */
  ghost predicate Advanced(st: ScanState, st': ScanState, hi: nat) {
    && st.Valid() && st'.Valid() && st'.remaining <= st.remaining
    && st.botRoom - st'.botRoom == st.remaining - st'.remaining
    && Stock(st.boxes, SLOTS) - Stock(st'.boxes, SLOTS) == st.remaining - st'.remaining
    && Told(st.boxes, st.counts, st'.boxes, st'.counts) && SameLayout(st.boxes, st'.boxes)
    && st.empty <= st'.empty && (forall i :: i in st'.empty && i !in st.empty ==> i < hi)
    && forall i :: hi <= i < SLOTS ==> st'.boxes[i] == st.boxes[i]
  }

  lemma VisitAdvances(st0: ScanState, st: ScanState, i: nat, served: Service)
    requires Advanced(st0, st, i) && i < SLOTS
    ensures Advanced(st0, VisitSlot(st, i, served), i + 1)
  {
    var b := st.boxes[i];
    if b.Box? { SumsAfter(st.boxes, SLOTS, i, Taken(b, Moves(st, b.stock, served))); }
  }

  lemma {:induction false} PassAdvances(st: ScanState, hi: nat, served: Service)
    requires st.Valid() && hi <= SLOTS
    ensures Advanced(st, PassUpTo(st, hi, served), hi)
  {
    if hi > 0 {
      PassAdvances(st, hi - 1, served);
      VisitAdvances(st, PassUpTo(st, hi - 1, served), hi - 1, served);
    }
  }

  lemma AdvancedTwice(st: ScanState, st': ScanState, st'': ScanState)
    requires Advanced(st, st', SLOTS) && Advanced(st', st'', SLOTS)
    ensures Advanced(st, st'', SLOTS)
  {
  }

  lemma {:induction false} PassesAdvance(st: ScanState, k: nat, served: Service)
    requires st.Valid()
    ensures Advanced(st, Passes(st, k, served), SLOTS)
  {
    if k > 0 {
      PassesAdvance(st, k - 1, served);
      var st' := Passes(st, k - 1, served);
      PassAdvances(st', SLOTS, served);
      AdvancedTwice(st, st', OnePass(st', served));
    }
  }

  /** A pass that opens nothing has seen every box confirmed drained. */
  lemma {:induction false} NothingOpened(st: ScanState, hi: nat, served: Service)
    requires st.Valid() && st.remaining > 0 && hi <= SLOTS
    ensures
      var st' := PassUpTo(st, hi, served);
      !st'.opened' ==> st'.remaining == st.remaining && forall i: nat :: i < hi && st.boxes[i].Box? ==> i in st.empty
  {
    if hi > 0 {
      NothingOpened(st, hi - 1, served);
      PassAdvances(st, hi - 1, served);
    }
  }

  /** With room enough, a visit empties its box or takes something. */
  lemma VisitGetsOn(st0: ScanState, st: ScanState, i: nat, served: Service)
    requires Advanced(st0, st, i) && i < SLOTS && Serves(served) && st.Enough()
    ensures
      var st' := VisitSlot(st, i, served);
      st' == st || st'.remaining < st.remaining || (i in st'.empty && i !in st.empty)
  {
    if st.boxes[i].Box? { StockAtLeast(st.boxes, SLOTS, i); }
  }

  /** With room enough, a pass that opens something gets on. */
  lemma {:induction false} GetsOn(st: ScanState, hi: nat, served: Service)
    requires st.Valid() && Serves(served) && st.Enough() && hi <= SLOTS
    ensures
      var st' := PassUpTo(st, hi, served);
      st'.opened' ==> st'.remaining < st.remaining || st'.empty != st.empty
  {
    if hi > 0 {
      GetsOn(st, hi - 1, served);
      PassAdvances(st, hi - 1, served);
      VisitGetsOn(st, PassUpTo(st, hi - 1, served), hi - 1, served);
      PassAdvances(st, hi, served);
    }
  }

  lemma {:induction false} StockAtLeast(s: seq<ChestSlot>, hi: nat, i: nat)
    requires i < hi <= |s| && s[i].Box?
    ensures Stock(s, hi) >= s[i].stock
  {
    if i < hi - 1 { StockAtLeast(s, hi - 1, i); }
  }

  /** Short of room, a pass opens every box in front of it that still holds something, and something remains. */
  lemma {:induction false} OpensStocked(st: ScanState, hi: nat, i: nat, served: Service)
    requires st.Valid() && !st.Enough() && i < SLOTS && st.boxes[i].Box? && st.boxes[i].stock > 0 && hi <= SLOTS
    ensures i < hi ==> PassUpTo(st, hi, served).opened'
  {
    if hi > 0 {
      OpensStocked(st, hi - 1, i, served);
      PassAdvances(st, hi - 1, served);
    }
  }

  lemma SomeStocked(s: seq<ChestSlot>) returns (i: nat)
    requires Stock(s, |s|) > 0
    ensures i < |s| && s[i].Box? && s[i].stock > 0
  {
    if j: nat :| j < |s| && s[j].Box? && s[j].stock > 0 {
      i := j;
    } else {
      NoStock(s, |s|);
    }
  }

  /** Short of room the scan never ends: after any number of passes something remains and a box was opened. */
  lemma {:induction false} ShortOfRoomNeverEnds(st: ScanState, k: nat, served: Service)
    requires st.Valid() && st.opened' && !st.Enough()
    ensures var st' := Passes(st, k, served); st'.Valid() && st'.Running() && !st'.Enough()
  {
    if k > 0 {
      ShortOfRoomNeverEnds(st, k - 1, served);
      var m := Passes(st, k - 1, served);
      PassAdvances(m, SLOTS, served);
      var i := SomeStocked(m.boxes);
      OpensStocked(m, SLOTS, i, served);
    }
  }

  /** With room enough, one more pass comes nearer the end. */
  lemma OnePassCloser(st: ScanState, served: Service)
    requires st.Valid() && st.Enough() && Serves(served) && st.Running()
    ensures
      var st' := OnePass(st, served);
      && st'.Valid() && st'.Enough()
      && (!st'.opened' ==> Stock(st'.boxes, SLOTS) == 0)
      && |st'.empty| <= SLOTS
      && (st'.opened' ==> st'.remaining - |st'.empty| < st.remaining - |st.empty|)
      && st'.remaining - |st'.empty| <= st.remaining - |st.empty|
  {
    var st' := OnePass(st, served);
    PassAdvances(st, SLOTS, served);
    GetsOn(st, SLOTS, served);
    NothingOpened(st, SLOTS, served);
    if !st'.opened' { NoStock(st'.boxes, SLOTS); }
    AtMostAllSlots(st.empty, st'.empty);
  }

  /** With room enough it ends, with all there was or all that was wanted. */
  lemma {:induction false} WithRoomItEnds(st: ScanState, served: Service) returns (k: nat)
    requires st.Valid() && st.Enough() && Serves(served)
    requires !st.opened' ==> st.remaining == 0 || Stock(st.boxes, SLOTS) == 0
    ensures
      var st' := Passes(st, k, served);
      !st'.Running() && (st'.remaining == 0 || Stock(st'.boxes, SLOTS) == 0)
    ensures |st.empty| <= SLOTS && k <= st.remaining + SLOTS - |st.empty| + 1
    ensures !st.Running() ==> k == 0
    decreases st.remaining + SLOTS - |st.empty|, if st.opened' then 1 else 0
  {
    AtMostAllSlots(st.empty, st.empty);
    k := 0;
    if st.Running() {
      var st' := OnePass(st, served);
      OnePassCloser(st, served);
      var more := WithRoomItEnds(st', served);
      k := more + 1;
      PassesAfterOne(st, more, served);
    }
  }

  lemma {:induction false} PassesAfterOne(st: ScanState, k: nat, served: Service)
    requires |st.boxes| == |st.counts| == SLOTS && st.Running()
    ensures Passes(st, k + 1, served) == Passes(OnePass(st, served), k, served)
  {
    if k > 0 { PassesAfterOne(st, k - 1, served); }
  }

  /** A scan that has ended stays as it is. */
  lemma {:induction false} EndedStays(st: ScanState, k: nat, more: nat, served: Service)
    requires |st.boxes| == |st.counts| == SLOTS && k <= more && !Passes(st, k, served).Running()
    ensures Passes(st, more, served) == Passes(st, k, served)
  {
    if k < more { EndedStays(st, k, more - 1, served); }
  }

  ghost predicate Ends(st: ScanState, served: Service)
    requires |st.boxes| == |st.counts| == SLOTS
  {
    exists k :: !Passes(st, k, served).Running()
  }

  /** The scan ends if and only if the bot has room for the lesser of the amount and the stock. */
  lemma EndsIffRoom(st: ScanState, served: Service)
    requires st.Valid() && st.opened' && Serves(served)
    ensures Ends(st, served) <==> st.Enough()
  {
    if st.Enough() {
      var k := WithRoomItEnds(st, served);
    } else {
      forall k ensures Passes(st, k, served).Running() { ShortOfRoomNeverEnds(st, k, served); }
    }
  }

  /** How long it may take: a pass for each item wanted and for each slot, and one more. */
  lemma EndsInTime(st: ScanState, most: nat, served: Service)
    requires st.Valid() && st.opened' && st.Enough() && Serves(served) && most > st.remaining + SLOTS
    ensures !Passes(st, most, served).Running()
  {
    var k := WithRoomItEnds(st, served);
    EndedStays(st, k, most, served);
  }

  /** A pass that opens nothing leaves no stock. */
  lemma NothingLeft(st: ScanState, served: Service)
    requires st.Valid() && st.Running() && !OnePass(st, served).opened'
    ensures Stock(OnePass(st, served).boxes, SLOTS) == 0
  {
    var st' := OnePass(st, served);
    PassAdvances(st, SLOTS, served);
    NothingOpened(st, SLOTS, served);
    NoStock(st'.boxes, SLOTS);
  }

  // ----- The deposit, as a function of the boxes -----

  datatype Plan = Plan(boxes: seq<ChestSlot>, counts: seq<int>, remaining: nat)

  /** Opening the box of one slot and filling it with what remains. */
  function FillNext(p: Plan, i: nat): (q: Plan)
    requires i < |p.boxes| == |p.counts|
    ensures |q.boxes| == |q.counts| == |p.boxes|
  {
    var b := p.boxes[i];
    if p.remaining == 0 || b.NoBox? then p
    else
      var n := Min(p.remaining, b.room);
      Plan(p.boxes[i := Added(b, n)], p.counts[i := b.stock + n], p.remaining - n)
  }

  /** Opening every box of the first `hi` slots in turn. */
  function Filled(boxes: seq<ChestSlot>, counts: seq<int>, amount: nat, hi: nat): (p: Plan)
    requires hi <= |boxes| == |counts|
    ensures |p.boxes| == |p.counts| == |boxes|
  {
    if hi == 0 then Plan(boxes, counts, amount) else FillNext(Filled(boxes, counts, amount, hi - 1), hi - 1)
  }

  /** The slots ahead are untouched. */
  lemma {:induction false} NotYetFilled(boxes: seq<ChestSlot>, counts: seq<int>, amount: nat, hi: nat, i: nat)
    requires hi <= i < |boxes| == |counts|
    ensures var p := Filled(boxes, counts, amount, hi); p.boxes[i] == boxes[i] && p.counts[i] == counts[i]
  {
    if hi > 0 { NotYetFilled(boxes, counts, amount, hi - 1, i); }
  }

  function RoomOf(b: ChestSlot): nat { if b.Box? then b.room else 0 }

  lemma FillNextTotal(p: Plan, i: nat)
    requires i < |p.boxes| == |p.counts|
    ensures
      var q := FillNext(p, i);
      && q.remaining == p.remaining - Min(p.remaining, RoomOf(p.boxes[i]))
      && Stock(q.boxes, |p.boxes|) == Stock(p.boxes, |p.boxes|) + p.remaining - q.remaining
  {
    var b := p.boxes[i];
    if p.remaining > 0 && b.Box? {
      SumsAfter(p.boxes, |p.boxes|, i, Added(b, Min(p.remaining, b.room)));
    }
  }

  /** Filling in turn leaves of the amount only what the boxes do not take. */
  lemma {:induction false} FilledTotal(boxes: seq<ChestSlot>, counts: seq<int>, amount: nat, hi: nat)
    requires hi <= |boxes| == |counts|
    ensures
      var p := Filled(boxes, counts, amount, hi);
      && p.remaining == amount - Min(amount, Room(boxes, hi))
      && Stock(p.boxes, |boxes|) == Stock(boxes, |boxes|) + amount - p.remaining
  {
    if hi > 0 {
      var p := Filled(boxes, counts, amount, hi - 1);
      FilledTotal(boxes, counts, amount, hi - 1);
      NotYetFilled(boxes, counts, amount, hi - 1, hi - 1);
      FillNextTotal(p, hi - 1);
      assert Room(boxes, hi) == Room(boxes, hi - 1) + RoomOf(boxes[hi - 1]);
      assert Filled(boxes, counts, amount, hi) == FillNext(p, hi - 1);
    }
  }

  /** Filling in turn keeps the boxes where they are, reports what it changed truthfully, and passes a box with room
      only when nothing remains. */
  ghost predicate FilledInTurn(boxes: seq<ChestSlot>, p: Plan, hi: nat) {
    && |p.boxes| == |p.counts| == |boxes| && SameLayout(boxes, p.boxes)
    && (forall i :: 0 <= i < |boxes| && p.boxes[i] != boxes[i] ==> p.boxes[i].Box? && p.counts[i] == p.boxes[i].stock)
    && (p.remaining > 0 ==> forall i :: 0 <= i < hi && i < |boxes| && p.boxes[i].Box? ==>
      p.boxes[i].room == 0 && p.counts[i] == p.boxes[i].stock)
  }

  lemma FillNextInTurn(boxes: seq<ChestSlot>, p: Plan, i: nat)
    requires i < |boxes| && FilledInTurn(boxes, p, i) && p.boxes[i] == boxes[i]
    ensures FilledInTurn(boxes, FillNext(p, i), i + 1)
  {
  }

  lemma {:induction false} FilledShape(boxes: seq<ChestSlot>, counts: seq<int>, amount: nat, hi: nat)
    requires hi <= |boxes| == |counts|
    ensures FilledInTurn(boxes, Filled(boxes, counts, amount, hi), hi)
  {
    if hi > 0 {
      var p := Filled(boxes, counts, amount, hi - 1);
      FilledShape(boxes, counts, amount, hi - 1);
      NotYetFilled(boxes, counts, amount, hi - 1, hi - 1);
      FillNextInTurn(boxes, p, hi - 1);
      assert Filled(boxes, counts, amount, hi) == FillNext(p, hi - 1);
    }
  }

  class Chest {
    var boxes: seq<ChestSlot>
    /** How many of the item the bot carries, and how many more it takes. */
    var carried: nat
    var botRoom: nat
    var visits: nat
    /** How many of the wanted items the n-th visit moves, if there is room and it does not fail outright. */
    const served: Service
    /** How many visits a failing step has cut short. */
    ghost var failures: nat

    constructor (boxes: seq<ChestSlot>, carried: nat, botRoom: nat, served: Service)
      ensures this.boxes == boxes && this.carried == carried && this.botRoom == botRoom && this.served == served
      ensures failures == 0
    {
      this.boxes, this.carried, this.botRoom, this.served := boxes, carried, botRoom, served;
      visits, failures := 0, 0;
    }

    /** Each visit moves all that is wanted. */
    ghost predicate ServesAll() { forall n, wanted: nat :: served(n, wanted) >= wanted }

    ghost predicate Valid() reads this`boxes { |boxes| == SLOTS }

    // ----- The withdrawal -----

    /** Where the scan stands. */
    ghost function Scan(counts: seq<int>, empty: set<nat>, remaining: nat, opened': bool): ScanState
      reads this`boxes, this`botRoom, this`visits
    {
      ScanState(boxes, counts, empty, remaining, botRoom, visits, opened')
    }

    /** One visit: the box is measured, emptied of up to `remaining`, and its count noted. A failure may come before
        the transfer, in the middle of it, or after the count was noted. `n` items left the box in any case. */
    method WithdrawVisit(i: nat, remaining: nat, counts: array<int>) returns (moved: Option<nat>, ghost n: nat)
      requires Valid() && i < SLOTS && boxes[i].Box? && counts.Length == SLOTS && remaining > 0
      modifies this`boxes, this`carried, this`botRoom, this`visits, this`failures, counts
      ensures Valid() && n <= Min(remaining, old(boxes)[i].stock) && n <= old(botRoom)
      ensures boxes == old(boxes)[i := Taken(old(boxes)[i], n)]
      ensures carried == old(carried) + n && botRoom == old(botRoom) - n
      ensures forall k :: 0 <= k < SLOTS && k != i ==> counts[k] == old(counts[k])
      ensures failures == old(failures) + if moved.None? then 1 else 0
      ensures moved.Some? ==>
        && moved.value == n && counts[i] == boxes[i].stock && visits == old(visits) + 1
        && forall empty, o :: n == Moves(old(Scan(counts[..], empty, remaining, o)), old(boxes)[i].stock, served)
    {
      n := 0;
      var isOpen: bool := *;
      if !isOpen {
        failures := failures + 1;
        return None, n;
      }
      var stock := boxes[i].stock;
      var wanted := Min(remaining, stock);
      var took := Min(Min(served(visits, wanted), wanted), botRoom);
      visits := visits + 1;
      var breaksOff: bool := *;
      if breaksOff {
        var part: nat :| part <= took;
        took := part;
      }
      n := took;
      boxes, carried, botRoom := boxes[i := Taken(boxes[i], took)], carried + took, botRoom - took;
      if breaksOff {
        failures := failures + 1;
        return None, n;
      }
      counts[i] := stock - took;
      var replaced: bool := *;
      if !replaced {
        failures := failures + 1;
        return None, n;
      }
      return Some(took), n;
    }

    /** One slot of a pass; a visit that is not cut short is the visit of the scan's state. */
    method WithdrawSlot(i: nat, remaining: nat, empty: set<nat>, counts: array<int>)
      returns (moved: Option<nat>, empty': set<nat>)
      requires Valid() && i < SLOTS && boxes[i].Box? && i !in empty && counts.Length == SLOTS && remaining > 0
      modifies this`boxes, this`carried, this`botRoom, this`visits, this`failures, counts
      ensures Valid() && Stock(boxes, SLOTS) + carried == Stock(old(boxes), SLOTS) + old(carried)
      ensures forall k :: 0 <= k < SLOTS && k != i ==> boxes[k] == old(boxes)[k] && counts[k] == old(counts[k])
      ensures failures == old(failures) + if moved.None? then 1 else 0
      ensures moved.Some? ==> moved.value <= remaining
      ensures moved.Some? ==> forall o ::
        Scan(counts[..], empty', remaining - moved.value, true) ==
          VisitSlot(old(Scan(counts[..], empty, remaining, o)), i, served)
    {
      ghost var before, noted := boxes, counts[..];
      ghost var n;
      moved, n := WithdrawVisit(i, remaining, counts);
      empty' := if boxes[i].stock == 0 then empty + {i} else empty;
      SumsAfter(before, SLOTS, i, boxes[i]);
      assert moved.Some? ==> counts[..] == noted[i := boxes[i].stock];
    }

    /** One pass over the chest. `opened'` says whether some box was opened; a pass that no visit cuts short is the pass
        of the scan's state. */
    method WithdrawPass(wanted: nat, confirmedEmpty: set<nat>, counts: array<int>)
      returns (r: Result<nat>, empty: set<nat>, opened': bool)
      requires counts.Length == SLOTS && wanted > 0 && Scan(counts[..], confirmedEmpty, wanted, true).Valid()
      modifies this`boxes, this`carried, this`botRoom, this`visits, this`failures, counts
      ensures Valid() && Stock(boxes, SLOTS) + carried == Stock(old(boxes), SLOTS) + old(carried)
      ensures failures == old(failures) + if r.Err? then 1 else 0
      ensures r.Err? ==>
        && r.error == VisitFailed
        && exists bad: nat :: ToldBut(old(boxes), old(counts[..]), boxes, counts[..], bad)
      ensures r.Ok? ==>
        Scan(counts[..], empty, r.value, opened') ==
          OnePass(old(Scan(counts[..], confirmedEmpty, wanted, true)), served)
    {
      ghost var start := Scan(counts[..], confirmedEmpty, wanted, true);
      var remaining: nat := wanted;
      empty, opened' := confirmedEmpty, false;
      for i := 0 to SLOTS
        invariant Valid() && Scan(counts[..], empty, remaining, opened') == PassUpTo(start, i, served)
        invariant Stock(boxes, SLOTS) + carried == Stock(old(boxes), SLOTS) + old(carried)
        invariant failures == old(failures)
      {
        if remaining > 0 && i !in empty && boxes[i].Box? {
          PassAdvances(start, i, served);
          var moved;
          moved, empty := WithdrawSlot(i, remaining, empty, counts);
          opened' := true;
          if moved.None? {
            assert ToldBut(old(boxes), old(counts[..]), boxes, counts[..], i);
            return Err(VisitFailed), empty, opened';
          }
          remaining := remaining - moved.value;
        }
      }
      r := Ok(remaining);
    }

    /** Withdraws `amount`, starting over from the first slot while something remains and a box was opened, but for at
        most `most` passes: None when the loop would go on. It returns having withdrawn all that is wanted or all there
        is; and it does return, unless a visit fails, when the bot has room for that and the visits are served. */
    method WithdrawShulkers(amount: nat, counts: array<int>, most: nat) returns (r: Option<Result<nat>>)
      requires Valid() && counts.Length == SLOTS
      modifies this`boxes, this`carried, this`botRoom, this`visits, this`failures, counts
      ensures Valid() && Stock(boxes, SLOTS) + carried == Stock(old(boxes), SLOTS) + old(carried)
      ensures r.None? ==> Passes(old(Scan(counts[..], {}, amount, true)), most, served).Running()
      ensures r.None? && Serves(served) && most > amount + SLOTS ==>
        old(botRoom) < Min(amount, Stock(old(boxes), SLOTS))
      ensures r.Some? && r.value.Ok? ==>
        && r.value.value == Min(amount, Stock(old(boxes), SLOTS))
        && carried == old(carried) + r.value.value && botRoom == old(botRoom) - r.value.value
        && Told(old(boxes), old(counts[..]), boxes, counts[..]) && SameLayout(old(boxes), boxes)
      ensures failures == old(failures) + if r.Some? && r.value.Err? then 1 else 0
      ensures r.Some? && r.value.Err? ==>
        && r.value.error == VisitFailed
        && exists bad: nat :: ToldBut(old(boxes), old(counts[..]), boxes, counts[..], bad)
    {
      var remaining: nat := amount;
      var confirmedEmpty: set<nat> := {};
      var allShulkersChecked := false;
      var passes: nat := 0;
      ghost var start := Scan(counts[..], {}, amount, true);
      while remaining > 0 && !allShulkersChecked
        invariant Valid() && passes <= most
        invariant Stock(boxes, SLOTS) + carried == Stock(old(boxes), SLOTS) + old(carried)
        invariant Scan(counts[..], confirmedEmpty, remaining, !allShulkersChecked) == Passes(start, passes, served)
        invariant allShulkersChecked ==> Stock(boxes, SLOTS) == 0
        invariant failures == old(failures)
        decreases most - passes
      {
        if passes == most {
          if Serves(served) && most > amount + SLOTS && start.Enough() { EndsInTime(start, most, served); }
          return None;
        }
        ghost var before := Passes(start, passes, served);
        PassesAdvance(start, passes, served);
        var step, empty, found := WithdrawPass(remaining, confirmedEmpty, counts);
        if step.Err? {
          ghost var bad: nat :| ToldBut(before.boxes, before.counts, boxes, counts[..], bad);
          assert ToldBut(old(boxes), old(counts[..]), boxes, counts[..], bad);
          return Some(Err(step.error));
        }
        if !found { NothingLeft(before, served); }
        remaining, confirmedEmpty, allShulkersChecked, passes := step.value, empty, !found, passes + 1;
      }
      PassesAdvance(start, passes, served);
      return Some(Ok(amount - remaining));
    }

    // ----- The deposit -----

    /** One visit: the box is measured and filled with up to `remaining`, and its count noted. `n` items went in. */
    method DepositVisit(i: nat, remaining: nat, counts: array<int>) returns (r: Result<nat>, ghost n: nat)
      requires Valid() && i < SLOTS && boxes[i].Box? && counts.Length == SLOTS && remaining > 0
      modifies this`boxes, this`carried, this`botRoom, this`visits, this`failures, counts
      ensures Valid() && n <= old(boxes)[i].room && n <= old(carried) && n <= remaining && botRoom == old(botRoom) + n
      ensures boxes == old(boxes)[i := Added(old(boxes)[i], n)] && carried == old(carried) - n
      ensures forall k :: 0 <= k < SLOTS && k != i ==> counts[k] == old(counts[k])
      ensures r.Ok? ==> r.value == n && counts[i] == boxes[i].stock && old(carried) > 0
      ensures failures == old(failures) + if r == Err(VisitFailed) then 1 else 0
      ensures r.Ok? && ServesAll() ==>
        var most := Min(remaining, old(carried));
        Plan(boxes, counts[..], most - n) == FillNext(Plan(old(boxes), old(counts[..]), most), i)
      ensures r == Err(BotEmpty) ==> old(carried) == 0
      ensures r == Err(NothingMoved) ==> !ServesAll()
      ensures r.Err? ==> r.error in {VisitFailed, BotEmpty, NothingMoved}
    {
      n := 0;
      var opens: bool := *;
      if !opens {
        failures := failures + 1;
        return Err(VisitFailed), n;
      }
      var replaced: bool := *;
      var b := boxes[i];
      if carried == 0 {
        failures := failures + if replaced then 0 else 1;
        return Err(if replaced then BotEmpty else VisitFailed), n;
      }
      var put: nat := 0;
      if b.room > 0 {
        var wanted := Min(Min(remaining, b.room), carried);
        put := Min(served(visits, wanted), wanted);
        visits := visits + 1;
        var breaksOff: bool := *;
        if breaksOff {
          var part: nat :| part <= put;
          put := part;
        }
        n := put;
        boxes, carried, botRoom := boxes[i := Added(b, put)], carried - put, botRoom + put;
        if breaksOff {
          failures := failures + 1;
          return Err(VisitFailed), n;
        }
        if put == 0 {
          failures := failures + if replaced then 0 else 1;
          return Err(if replaced then NothingMoved else VisitFailed), n;
        }
      }
      counts[i] := b.stock + put;
      if !replaced {
        failures := failures + 1;
        return Err(VisitFailed), n;
      }
      return Ok(put), n;
    }

    /** One slot of a deposit, passed over when its count says that its box is full. */
    method DepositSlot(i: nat, remaining: nat, stackSize: nat, known: Option<seq<int>>, counts: array<int>)
      returns (r: Result<nat>)
      requires Valid() && i < SLOTS && counts.Length == SLOTS && (known.Some? ==> |known.value| == SLOTS)
      requires remaining > 0
      modifies this`boxes, this`carried, this`botRoom, this`visits, this`failures, counts
      ensures Valid() && Stock(boxes, SLOTS) + carried == Stock(old(boxes), SLOTS) + old(carried)
      ensures r.Ok? ==> r.value <= remaining && carried == old(carried) - r.value
      ensures failures == old(failures) + if r == Err(VisitFailed) then 1 else 0
      ensures r.Err? ==> r.error in {VisitFailed, BotEmpty, NothingMoved}
      ensures r == Err(BotEmpty) ==> carried == 0 == old(carried)
      ensures r == Err(NothingMoved) ==> !ServesAll()
      ensures ServesAll() && old(FullIfKnown(boxes[i], counts[i], known, i, stackSize)) && r.Ok? ==>
        Plan(boxes, counts[..], Min(remaining - r.value, carried)) ==
          FillNext(old(Plan(boxes, counts[..], Min(remaining, carried))), i)
    {
      if known.Some? && known.value[i] >= BOX_SLOTS * stackSize {
        if FullIfKnown(boxes[i], counts[i], known, i, stackSize) {
          SkippingFullBox(Plan(boxes, counts[..], Min(remaining, carried)), i, known, stackSize);
        }
        return Ok(0);
      }
      if boxes[i].NoBox? { return Ok(0); }
      ghost var before := boxes;
      ghost var n;
      r, n := DepositVisit(i, remaining, counts);
      SumsAfter(before, SLOTS, i, boxes[i]);
    }

    /** Deposits `amount`, skipping boxes known to be full. With truthful counts and faithful transfers the outcome is
        that of opening every box in turn with as much of the amount as the bot carries, unless the bot runs out on the
        way. */
    method DepositShulkers(amount: nat, stackSize: nat, known: Option<seq<int>>, counts: array<int>)
      returns (r: Result<nat>)
      requires Valid() && counts.Length == SLOTS && (known.Some? ==> |known.value| == SLOTS)
      modifies this`boxes, this`carried, this`botRoom, this`visits, this`failures, counts
      ensures Valid() && Stock(boxes, SLOTS) + carried == Stock(old(boxes), SLOTS) + old(carried)
      ensures r.Ok? ==> r.value <= amount && carried == old(carried) - r.value
      ensures r == Err(NoShulkers) <==> forall i :: 0 <= i < SLOTS ==> old(boxes)[i].NoBox?
      ensures failures == old(failures) + if r == Err(VisitFailed) then 1 else 0
      ensures r.Err? ==> r.error in {NoShulkers, VisitFailed, BotEmpty, NothingMoved}
      ensures r == Err(BotEmpty) ==> carried == 0 && old(carried) < amount
      ensures r == Err(NothingMoved) ==> !ServesAll()
      ensures r.Ok? && ServesAll() && KnownTruthful(old(boxes), old(counts[..]), known, stackSize) ==>
        var most := Min(amount, old(carried));
        var p := Filled(old(boxes), old(counts[..]), most, SLOTS);
        boxes == p.boxes && counts[..] == p.counts && r.value == most - p.remaining
    {
      if !HasBox(boxes) { return Err(NoShulkers); }
      var remaining: nat := amount;
      ghost var start := boxes;
      ghost var noted := counts[..];
      ghost var most := Min(amount, carried);
      ghost var faithful := ServesAll() && KnownTruthful(boxes, counts[..], known, stackSize);
      for i := 0 to SLOTS
        invariant Valid() && remaining <= amount && carried == old(carried) - (amount - remaining)
        invariant Stock(boxes, SLOTS) + carried == Stock(old(boxes), SLOTS) + old(carried)
        invariant failures == old(failures)
        invariant faithful ==> Plan(boxes, counts[..], Min(remaining, carried)) == Filled(start, noted, most, i)
      {
        if remaining == 0 {
          if faithful { NothingMoreToFill(start, noted, most, i, SLOTS); }
          break;
        }
        if faithful { KnownFull(start, noted, most, known, stackSize, i); }
        var step := DepositSlot(i, remaining, stackSize, known, counts);
        if step.Err? { return Err(step.error); }
        remaining := remaining - step.value;
      }
      r := Ok(amount - remaining);
    }

    // ----- Both directions -----

    /** The whole operation, a withdrawal for at most `most` passes: None when it would go on. Ok means exactly `amount`
        moved; when less was there to move, the items that did move stay moved and their counts are not reported. */
    method AutomatedChestIo(direction: Direction, amount: int, stackSize: nat, known: Option<seq<int>>, most: nat)
      returns (r: Option<Result<seq<int>>>)
      requires Valid() && (known.Some? ==> |known.value| == SLOTS)
      modifies this`boxes, this`carried, this`botRoom, this`visits, this`failures
      ensures Valid() && Stock(boxes, SLOTS) + carried == Stock(old(boxes), SLOTS) + old(carried)
      ensures amount <= 0 ==> r == Some(Ok(InitialCounts(known))) && boxes == old(boxes)
      ensures r.None? ==>
        && direction.Withdraw? && amount > 0
        && Passes(old(Scan(InitialCounts(known), {}, amount, true)), most, served).Running()
      ensures r.Some? && r.value.Ok? ==> |r.value.value| == SLOTS
      ensures r.Some? && r.value.Ok? && amount > 0 ==>
        carried == old(carried) + if direction.Withdraw? then amount else -amount
      ensures r.Some? && r.value.Ok? && amount > 0 && direction.Withdraw? ==>
        Told(old(boxes), InitialCounts(known), boxes, r.value.value)
      ensures failures == old(failures) + if r == Some(Err(VisitFailed)) then 1 else 0
      ensures direction.Withdraw? && amount > 0 && r == Some(Err(Incomplete)) ==>
        Stock(old(boxes), SLOTS) < amount && Stock(boxes, SLOTS) == 0
      ensures direction.Withdraw? && amount > 0 && Stock(old(boxes), SLOTS) < amount ==> !(r.Some? && r.value.Ok?)
      ensures direction.Withdraw? && r.Some? && r.value.Err? ==> r.value.error in {VisitFailed, Incomplete}
      ensures ServesAll() && KnownTruthful(old(boxes), InitialCounts(known), known, stackSize) ==>
        (direction.Deposit? && amount > 0 && r == Some(Err(Incomplete)) ==>
          Min(old(carried), Room(old(boxes), SLOTS)) < amount)
    {
      var initial := InitialCounts(known);
      var counts := new int[SLOTS](i requires 0 <= i < SLOTS => initial[i]);
      assert counts[..] == initial;
      if amount <= 0 { return Some(Ok(counts[..])); }
      var step;
      if direction.Withdraw? {
        var ended := WithdrawShulkers(amount, counts, most);
        if ended.None? { return None; }
        step := ended.value;
      } else {
        step := DepositShulkers(amount, stackSize, known, counts);
        FilledTotal(old(boxes), initial, Min(amount, old(carried)), SLOTS);
      }
      if step.Err? { return Some(Err(step.error)); }
      if step.value < amount { return Some(Err(Incomplete)); }
      return Some(Ok(counts[..]));
    }
  }

  /** The counts known before, or "not checked". */
  function InitialCounts(known: Option<seq<int>>): (r: seq<int>)
    requires known.Some? ==> |known.value| == SLOTS
    ensures |r| == SLOTS
  {
    if known.Some? then known.value else seq(SLOTS, i => -1)
  }

  predicate HasBox(s: seq<ChestSlot>) { exists i :: 0 <= i < |s| && s[i].Box? }

  /** Counts carried over from before are right wherever they say a box is full, and no box is beyond full. */
  ghost predicate KnownTruthful(boxes: seq<ChestSlot>, counts: seq<int>, known: Option<seq<int>>, stackSize: nat) {
    && |boxes| == |counts| == SLOTS
    && (forall i :: 0 <= i < SLOTS && boxes[i].Box? ==> boxes[i].stock + boxes[i].room <= BOX_SLOTS * stackSize)
    && (known.Some? ==> known.value == counts)
    && (known.Some? ==> forall i ::
      0 <= i < SLOTS && boxes[i].Box? && counts[i] >= BOX_SLOTS * stackSize ==> counts[i] == boxes[i].stock)
  }

  lemma {:induction false} NothingMoreToFill(boxes: seq<ChestSlot>, counts: seq<int>, amount: nat, i: nat, hi: nat)
    requires i <= hi <= |boxes| == |counts| && Filled(boxes, counts, amount, i).remaining == 0
    ensures Filled(boxes, counts, amount, hi) == Filled(boxes, counts, amount, i)
  {
    if i < hi { NothingMoreToFill(boxes, counts, amount, i, hi - 1); }
  }

  /** A count that says a box is full is right. */
  ghost predicate FullIfKnown(b: ChestSlot, count: int, known: Option<seq<int>>, i: nat, stackSize: nat)
    requires known.Some? ==> i < |known.value|
  {
    known.Some? && known.value[i] >= BOX_SLOTS * stackSize && b.Box? ==> b.room == 0 && count == b.stock
  }

  lemma KnownFull(boxes: seq<ChestSlot>, counts: seq<int>, amount: nat, known: Option<seq<int>>, stackSize: nat, i: nat)
    requires KnownTruthful(boxes, counts, known, stackSize) && i < SLOTS && (known.Some? ==> |known.value| == SLOTS)
    ensures var p := Filled(boxes, counts, amount, i); FullIfKnown(p.boxes[i], p.counts[i], known, i, stackSize)
  {
    NotYetFilled(boxes, counts, amount, i, i);
  }

  /** Opening a box that is known to be full would change nothing. */
  lemma SkippingFullBox(p: Plan, i: nat, known: Option<seq<int>>, stackSize: nat)
    requires |p.boxes| == |p.counts| == SLOTS && i < SLOTS && known.Some? && |known.value| == SLOTS
    requires known.value[i] >= BOX_SLOTS * stackSize && FullIfKnown(p.boxes[i], p.counts[i], known, i, stackSize)
    ensures FillNext(p, i) == p
  {
    if p.boxes[i].Box? && p.remaining > 0 {
      assert p.boxes[i := Added(p.boxes[i], 0)] == p.boxes && p.counts[i := p.boxes[i].stock] == p.counts;
    }
  }

  lemma AtMostAllSlots(a: set<nat>, b: set<nat>)
    requires a <= b && forall i :: i in b ==> i < SLOTS
    ensures |a| <= |b| <= SLOTS && (a != b ==> |a| < |b|)
  {
    Subset(a, b);
    Subset(b, Slots(SLOTS));
  }

  function Slots(n: nat): (s: set<nat>)
    ensures |s| == n && forall i: nat :: i in s <==> i < n
  {
    if n == 0 then {} else Slots(n - 1) + {n - 1}
  }

  lemma {:induction false} Subset<T>(a: set<T>, b: set<T>)
    requires a <= b
    ensures |a| <= |b| && (a != b ==> |a| < |b|)
  {
    assert b == a + (b - a);
    if a != b { assert |b - a| > 0; }
  }
}
