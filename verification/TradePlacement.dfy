/** Laying the bot's side of a trade (src/bot/trade.rs). The trade window has 54 container slots, of which twelve are
    the bot's offer, then the bot's inventory and hotbar. */
module TradePlacement {
  import opened Basics
  import opened Container

  const GRID := Range(0, 54)
  const BOT := Range(54, 90)
  const WINDOW: nat := 90

  datatype Error = Closed | CursorNotCleared | LacksItems | OffersFull | LiftFailed | LayFailed
  datatype Result = Ok | Err(error: Error)

  /** The offer's twelve slots: rows 0 to 2, columns 0 to 3. */
  predicate IsOffer(i: int) { 0 <= i < 27 && i % 9 < 4 }

  function EmptyOffers(s: seq<Slot>, hi: nat): nat
    requires hi <= |s|
  {
    if hi == 0 then 0 else EmptyOffers(s, hi - 1) + if IsOffer(hi - 1) && s[hi - 1].Empty? then 1 else 0
  }

  function FirstEmptyOffer(s: seq<Slot>, lo: nat): (r: Option<nat>)
    requires |s| >= 27
    ensures r.Some? ==> r.value < 27 && IsOffer(r.value) && s[r.value].Empty?
    ensures r.None? ==> forall i :: lo <= i < 27 && IsOffer(i) ==> s[i].Stack?
    decreases 27 - lo
  {
    if lo >= 27 then None else if IsOffer(lo) && s[lo].Empty? then Some(lo) else FirstEmptyOffer(s, lo + 1)
  }

  lemma {:induction false} EmptyOffersUpdate(s: seq<Slot>, hi: nat, i: nat, x: Slot)
    requires hi <= |s| && i < |s|
    ensures EmptyOffers(s[i := x], hi) ==
      EmptyOffers(s, hi) +
        if i < hi && IsOffer(i) then (if x.Empty? then 1 else 0) - (if s[i].Empty? then 1 else 0) else 0
  {
    if hi > 0 { EmptyOffersUpdate(s, hi - 1, i, x); }
  }

  lemma {:induction false} NoEmptyOffers(s: seq<Slot>, hi: nat)
    requires hi <= |s| && forall i :: 0 <= i < hi && IsOffer(i) ==> s[i].Stack?
    ensures EmptyOffers(s, hi) == 0
  {
    if hi > 0 { NoEmptyOffers(s, hi - 1); }
  }

  // ----- Which stack to lift -----

  predicate Holds(s: seq<Slot>, i: nat, kind: Kind) { i < |s| && CountIn(s[i], kind) > 0 }

  /** The largest stack that fits in what is still wanted; when none fits, the smallest. The first among equals. */
  ghost predicate BestFit(s: seq<Slot>, lo: nat, hi: nat, kind: Kind, wanted: int, best: nat) {
    && lo <= best < hi <= |s| && Holds(s, best, kind)
    && forall i :: lo <= i < hi && Holds(s, i, kind) ==>
      if CountIn(s[best], kind) <= wanted then
        CountIn(s[i], kind) <= wanted ==>
          CountIn(s[i], kind) < CountIn(s[best], kind) || (CountIn(s[i], kind) == CountIn(s[best], kind) && best <= i)
      else
        CountIn(s[i], kind) > CountIn(s[best], kind) || (CountIn(s[i], kind) == CountIn(s[best], kind) && best <= i)
  }

  method FindBestFit(s: seq<Slot>, lo: nat, kind: Kind, wanted: int) returns (best: Option<nat>)
    requires lo <= |s|
    ensures best.Some? ==> BestFit(s, lo, |s|, kind, wanted, best.value)
    ensures best.None? ==> forall i :: lo <= i < |s| ==> CountIn(s[i], kind) == 0
  {
    best := None;
    for i := lo to |s|
      invariant best.Some? ==> BestFit(s, lo, i, kind, wanted, best.value)
      invariant best.None? ==> forall k :: lo <= k < i ==> CountIn(s[k], kind) == 0
    {
      if CountIn(s[i], kind) > 0 {
        var c := CountIn(s[i], kind);
        if best.None? {
          best := Some(i);
        } else {
          var bc := CountIn(s[best.value], kind);
          var better := if c <= wanted then bc > wanted || c > bc else bc > wanted && c < bc;
          if better { best := Some(i); }
        }
      }
    }
  }

  // ----- One stack into one offer slot -----

  /** Only empty offer slots of the grid have been filled. */
  ghost predicate OffersOnly(s: seq<Slot>, s': seq<Slot>) {
    |s| == |s'| == WINDOW && forall i :: 0 <= i < 54 && s'[i] != s[i] ==> IsOffer(i) && s[i].Empty?
  }

  /** As many empty offer slots as stacks of the kind. */
  predicate Roomy(s: seq<Slot>, kind: Kind)
    requires |s| == WINDOW
  {
    EmptyOffers(s, 27) >= SumOver(s, StacksOf(kind), BOT)
  }

  function Rest(slot: Slot, n: nat): Slot
    requires slot.Stack? && n <= slot.count
  {
    if n == slot.count then Empty else Stack(slot.kind, slot.count - n)
  }

  function Laid(s: seq<Slot>, from: nat, to: nat, n: nat): seq<Slot>
    requires from < |s| && to < |s| && s[from].Stack? && n <= s[from].count
  {
    s[from := Rest(s[from], n)][to := Put(s[to], s[from].kind, n)]
  }

  lemma LaidMoves(s: seq<Slot>, from: nat, to: nat, n: nat, size: Count)
    requires |s| == WINDOW && BOT.Has(from) && s[from].Stack? && 0 < n <= s[from].count && IsOffer(to) && s[to].Empty?
    requires Fits(s, s[from].kind, size)
    ensures
      var s', kind := Laid(s, from, to, n), s[from].kind;
      Moved(s, s', kind, n, BOT, GRID) && OffersOnly(s, s') && Fits(s', kind, size)
  {
    var kind := s[from].kind;
    var rest := Rest(s[from], n);
    var lifted := s[from := rest];
    SumUpdate(s, CountOf(kind), BOT.lo, BOT.hi, from, rest);
    SumUpdate(s, CountOf(kind), GRID.lo, GRID.hi, from, rest);
    SumUpdate(lifted, CountOf(kind), BOT.lo, BOT.hi, to, Put(s[to], kind, n));
    SumUpdate(lifted, CountOf(kind), GRID.lo, GRID.hi, to, Put(s[to], kind, n));
  }

  /** The offers have gained `n` of the kind, in slots that were empty; nothing else of the grid has changed. */
  ghost predicate OffersGrew(s: seq<Slot>, s': seq<Slot>, kind: Kind, n: int) {
    && OffersOnly(s, s')
    && SumOver(s', CountOf(kind), GRID) == SumOver(s, CountOf(kind), GRID) + n
  }

  lemma OneOfferGrew(s: seq<Slot>, s': seq<Slot>, to: nat, kind: Kind, n: nat)
    requires |s| == |s'| == WINDOW && IsOffer(to) && s[to].Empty?
    requires forall i :: 0 <= i < 54 ==> s'[i] == if i == to then Put(Empty, kind, n) else s[i]
    ensures OffersGrew(s, s', kind, n)
  {
    var filled := s[to := Put(Empty, kind, n)];
    SumUpdate(s, CountOf(kind), 0, 54, to, Put(Empty, kind, n));
    SumSame(filled, s', CountOf(kind), 0, 54);
  }

  /** Clicks elsewhere keep what the offers have gained. */
  lemma StillGrew(s: seq<Slot>, mid: seq<Slot>, s': seq<Slot>, kind: Kind, n: int)
    requires OffersGrew(s, mid, kind, n) && |s'| == WINDOW && forall i :: 0 <= i < 54 ==> s'[i] == mid[i]
    ensures OffersGrew(s, s', kind, n)
  {
    SumSame(mid, s', CountOf(kind), 0, 54);
  }

  /** A whole stack laid uses up one stack and one empty offer slot. */
  lemma WholeStackStaysRoomy(s: seq<Slot>, from: nat, to: nat)
    requires |s| == WINDOW && BOT.Has(from) && s[from].Stack? && IsOffer(to) && s[to].Empty?
    ensures Roomy(s, s[from].kind) ==> Roomy(Laid(s, from, to, s[from].count), s[from].kind)
  {
    var kind := s[from].kind;
    var lifted, x := s[from := Empty], Put(s[to], kind, s[from].count);
    SumUpdate(s, StacksOf(kind), BOT.lo, BOT.hi, from, Empty);
    SumUpdate(lifted, StacksOf(kind), BOT.lo, BOT.hi, to, x);
    EmptyOffersUpdate(s, 27, from, Empty);
    EmptyOffersUpdate(lifted, 27, to, x);
  }

  /** `done` of the `wanted` items went to the offer, and there is still a slot for every stack unless that is all. */
  ghost predicate Progress(s: seq<Slot>, s': seq<Slot>, kind: Kind, done: int, wanted: int, size: Count) {
    && |s| == |s'| == WINDOW
    && Fits(s', kind, size) && OffersOnly(s, s') && Moved(s, s', kind, done, BOT, GRID)
    && (Roomy(s, kind) && done < wanted ==> Roomy(s', kind))
  }

  lemma NoProgressYet(s: seq<Slot>, kind: Kind, wanted: int, size: Count)
    requires |s| == WINDOW && Fits(s, kind, size)
    ensures Progress(s, s, kind, 0, wanted, size)
  {
  }

  lemma ProgressTwice(s: seq<Slot>, s': seq<Slot>, s'': seq<Slot>, kind: Kind, done: int, more: int, wanted: int,
        size: Count)
    requires Progress(s, s', kind, done, wanted, size) && Progress(s', s'', kind, more, wanted - done, size)
    requires done < wanted && more >= 0
    ensures Progress(s, s'', kind, done + more, wanted, size)
  {
    MovedTwice(s, s', s'', kind, done, more, BOT, GRID);
  }

  lemma LayingIsProgress(s: seq<Slot>, from: nat, to: nat, kind: Kind, wanted: nat, size: Count)
    requires |s| == WINDOW && BOT.Has(from) && Holds(s, from, kind) && wanted > 0 && IsOffer(to) && s[to].Empty?
    requires Fits(s, kind, size)
    ensures var n := Min(wanted, CountIn(s[from], kind)); Progress(s, Laid(s, from, to, n), kind, n, wanted, size)
  {
    LaidMoves(s, from, to, Min(wanted, CountIn(s[from], kind)), size);
    WholeStackStaysRoomy(s, from, to);
  }

  lemma FullOffersAreNotRoomy(s: seq<Slot>, kind: Kind, i: nat)
    requires |s| == WINDOW && BOT.Has(i) && Holds(s, i, kind) && FirstEmptyOffer(s, 0).None?
    ensures !Roomy(s, kind)
  {
    NoEmptyOffers(s, 27);
    assert forall j :: 54 <= j < 90 ==> Weigh(StacksOf(kind), s[j]) >= 0;
    SumAtLeast(s, StacksOf(kind), 54, 90, i);
  }

  // ----- Which stacks were lifted -----

  /** One lift took the stack at `from`, whole unless that is more than is wanted, and no other of the bot's. */
  ghost predicate LiftedOne(s: seq<Slot>, s': seq<Slot>, kind: Kind, wanted: int, from: nat) {
    && |s| == |s'| == WINDOW && BOT.Has(from) && Holds(s, from, kind) && wanted > 0
    && s'[from] == Rest(s[from], Min(wanted, CountIn(s[from], kind)))
    && forall i :: BOT.Has(i) && i != from ==> s'[i] == s[i]
  }

  /** What is still wanted once these stacks are gone. */
  function Missing(s: seq<Slot>, kind: Kind, wanted: int, lifted: seq<nat>): int
    requires forall j :: 0 <= j < |lifted| ==> lifted[j] < |s|
  {
    if lifted == [] then wanted
    else Missing(s, kind, wanted, lifted[..|lifted| - 1]) - CountIn(s[lifted[|lifted| - 1]], kind)
  }

  /** The stacks lifted are stacks of the kind, each lifted once and whole; the bot's others are where they were. */
  ghost predicate LiftedWhole(s: seq<Slot>, s': seq<Slot>, kind: Kind, lifted: seq<nat>) {
    && |s| == |s'| == WINDOW
    && (forall j :: 0 <= j < |lifted| ==> BOT.Has(lifted[j]) && Holds(s, lifted[j], kind) && s'[lifted[j]].Empty?)
    && (forall i, j :: 0 <= i < j < |lifted| ==> lifted[i] != lifted[j])
    && (forall i :: BOT.Has(i) && i !in lifted ==> s'[i] == s[i])
  }

  /** The stacks lifted are stacks of the kind, each lifted once; only from the last may something be left. */
  ghost predicate LiftedOnce(s: seq<Slot>, s': seq<Slot>, kind: Kind, wanted: int, lifted: seq<nat>) {
    && |s'| == WINDOW && lifted != [] && lifted[|lifted| - 1] < WINDOW
    && var last := lifted[|lifted| - 1];
    && LiftedWhole(s, s'[last := Empty], kind, lifted)
    && var left := Missing(s, kind, wanted, lifted[..|lifted| - 1]);
    && left > 0 && s'[last] == Rest(s[last], Min(left, CountIn(s[last], kind)))
  }

  /** A lift that leaves something wanted took a stack no earlier lift touched, and took all of it. */
  lemma LiftOneMore(s: seq<Slot>, mid: seq<Slot>, s': seq<Slot>, kind: Kind, wanted: int, lifted: seq<nat>, from: nat)
    requires LiftedWhole(s, mid, kind, lifted)
    requires LiftedOne(mid, s', kind, Missing(s, kind, wanted, lifted), from)
    ensures from !in lifted && mid[from] == s[from] && LiftedOnce(s, s', kind, wanted, lifted + [from])
    ensures
      var left := Missing(s, kind, wanted, lifted + [from]);
      && (left >= 0 ==> LiftedWhole(s, s', kind, lifted + [from]))
      && left == Missing(s, kind, wanted, lifted) - CountIn(s[from], kind)
  {
    assert (lifted + [from])[..|lifted|] == lifted;
  }

  /** Midway: what was wanted is laid or remains, and no stack was lifted twice. */
  ghost predicate Underway(s: seq<Slot>, s': seq<Slot>, kind: Kind, amount: int, remaining: int, lifted: seq<nat>,
        size: Count)
  {
    && Progress(s, s', kind, amount - remaining, amount, size)
    && if remaining > 0 then LiftedWhole(s, s', kind, lifted) && Missing(s, kind, amount, lifted) == remaining
       else LiftedOnce(s, s', kind, amount, lifted)
  }

  lemma OneMoreTurn(s: seq<Slot>, mid: seq<Slot>, s': seq<Slot>, kind: Kind, amount: int, remaining: int, placed: int,
        lifted: seq<nat>, from: nat, size: Count)
    requires remaining > 0 && Underway(s, mid, kind, amount, remaining, lifted, size)
    requires Progress(mid, s', kind, placed, remaining, size) && LiftedOne(mid, s', kind, remaining, from)
    requires placed == Min(remaining, CountIn(mid[from], kind))
    ensures Underway(s, s', kind, amount, remaining - placed, lifted + [from], size)
  {
    LiftOneMore(s, mid, s', kind, amount, lifted, from);
    ProgressTwice(s, mid, s', kind, amount - remaining, placed, amount, size);
  }

  /** A turn that finds no stock, or no empty offer slot, finds it because there was too little to begin with. */
  lemma TurnFailsRightly(s: seq<Slot>, s': seq<Slot>, kind: Kind, amount: int, remaining: int, lifted: seq<nat>,
        size: Count)
    requires remaining > 0 && Underway(s, s', kind, amount, remaining, lifted, size)
    ensures SumOver(s', CountOf(kind), BOT) == 0 ==> SumOver(s, CountOf(kind), BOT) < amount
    ensures !Roomy(s', kind) ==> !Roomy(s, kind)
  {
  }

  /** How many of `n` clicks, from the `click`-th, are never received. */
  function Missed(received: nat -> bool, click: nat, n: nat): (missed: nat)
    ensures missed <= n
  {
    if n == 0 then 0 else Missed(received, click, n - 1) + if received(click + n - 1) then 0 else 1
  }

  lemma {:induction false} NoneMissed(received: nat -> bool, click: nat, n: nat)
    requires forall k :: received(k)
    ensures Missed(received, click, n) == 0
  {
    if n > 0 { NoneMissed(received, click, n - 1); }
  }

  /** The bot's first empty slot, or the slot given when there is none. */
  function SlotToClear(s: seq<Slot>, from: nat, lo: nat): (i: nat)
    requires |s| == WINDOW && 54 <= lo <= WINDOW
    ensures
      if lo <= i < WINDOW && s[i].Empty? then forall k :: lo <= k < i ==> s[k].Stack?
      else i == from && forall k :: lo <= k < WINDOW ==> s[k].Stack?
    decreases WINDOW - lo
  {
    if lo == WINDOW then from else if s[lo].Empty? then lo else SlotToClear(s, from, lo + 1)
  }

  class TradeWindow {
    var slots: seq<Slot>
    var cursor: Slot
    /** Stacks thrown on the floor by a click outside the window. */
    var floor: seq<Slot>
    var clicks: nat
    /** A window that was closed stays closed. */
    var open: bool
    /** Whether the server receives the n-th click. */
    const received: nat -> bool
    const sizes: Sizes

    constructor (slots: seq<Slot>, cursor: Slot, received: nat -> bool, sizes: Sizes)
      ensures this.slots == slots && this.cursor == cursor && this.received == received && this.sizes == sizes
      ensures floor == [] && clicks == 0 && open
    {
      this.slots, this.cursor, this.received, this.sizes := slots, cursor, received, sizes;
      floor, clicks, open := [], 0, true;
    }

    ghost predicate Lossless() { forall n :: received(n) }

    /** No stack of the kind is larger than a stack may be, on the cursor or off it. */
    ghost predicate AllFit(kind: Kind)
      reads this`slots, this`cursor
    {
      Fits(slots, kind, sizes(kind)) && CountIn(cursor, kind) <= sizes(kind)
    }

    /** All there is of a kind, in the window, on the cursor and on the floor. */
    function Total(kind: Kind): int
      reads this`slots, this`cursor, this`floor
    {
      Sum(slots, CountOf(kind), 0, |slots|) + CountIn(cursor, kind) + Sum(floor, CountOf(kind), 0, |floor|)
    }

    /** A read of the window, which may have closed since the last. */
    method StillOpen() returns (yes: bool)
      modifies this`open
      ensures yes == open && (open ==> old(open))
    {
      var closes: bool := *;
      open := open && !closes;
      yes := open;
    }

    method LeftClick(i: nat)
      requires i < |slots|
      modifies this`slots, this`cursor, this`clicks
      ensures clicks == old(clicks) + 1
      ensures received(old(clicks)) ==>
        var (a, b) := LeftClicked(old(slots[i]), old(cursor), sizes); slots == old(slots)[i := a] && cursor == b
      ensures !received(old(clicks)) ==> slots == old(slots) && cursor == old(cursor)
      ensures |slots| == |old(slots)| && forall kind :: Total(kind) == old(Total(kind))
    {
      if received(clicks) {
        var (a, b) := LeftClicked(slots[i], cursor, sizes);
        ghost var s := slots;
        slots, cursor := slots[i := a], b;
        forall kind ensures Total(kind) == old(Total(kind)) {
          SumUpdate(s, CountOf(kind), 0, |s|, i, a);
          ClicksConserve(s[i], old(cursor), sizes, kind);
        }
      }
      clicks := clicks + 1;
    }

    method RightClick(i: nat)
      requires i < |slots|
      modifies this`slots, this`cursor, this`clicks
      ensures clicks == old(clicks) + 1
      ensures received(old(clicks)) ==>
        var (a, b) := RightClicked(old(slots[i]), old(cursor), sizes); slots == old(slots)[i := a] && cursor == b
      ensures !received(old(clicks)) ==> slots == old(slots) && cursor == old(cursor)
      ensures |slots| == |old(slots)| && forall kind :: Total(kind) == old(Total(kind))
    {
      if received(clicks) {
        var (a, b) := RightClicked(slots[i], cursor, sizes);
        ghost var s := slots;
        slots, cursor := slots[i := a], b;
        forall kind ensures Total(kind) == old(Total(kind)) {
          SumUpdate(s, CountOf(kind), 0, |s|, i, a);
          ClicksConserve(s[i], old(cursor), sizes, kind);
        }
      }
      clicks := clicks + 1;
    }

    method ClickOutside()
      modifies this`cursor, this`floor, this`clicks
      ensures clicks == old(clicks) + 1
      ensures if received(old(clicks)) then cursor.Empty? && floor == old(floor) + [old(cursor)]
        else cursor == old(cursor) && floor == old(floor)
      ensures forall kind :: Total(kind) == old(Total(kind))
    {
      if received(clicks) {
        ghost var f := floor;
        floor, cursor := floor + [cursor], Empty;
        forall kind ensures Total(kind) == old(Total(kind)) {
          SumSame(f, floor[..|f|], CountOf(kind), 0, |f|);
          SumPrefix(f, floor, CountOf(kind), |f|);
        }
      }
      clicks := clicks + 1;
    }

    /** Right-clicks an empty offer slot once for each item wanted, with more than that on the cursor. */
    method DropSome(to: nat, kind: Kind, n: nat) returns (ghost dropped: nat)
      requires to < |slots| && slots[to].Empty? && cursor.Stack? && cursor.kind == kind && n < cursor.count
      modifies this`slots, this`cursor, this`clicks
      ensures dropped <= n && slots == old(slots)[to := Put(Empty, kind, dropped)]
      ensures cursor == Stack(kind, old(cursor).count - dropped)
      ensures clicks == old(clicks) + n
      ensures n <= sizes(kind) ==> dropped == n - Missed(received, old(clicks), n)
      ensures forall k :: Total(k) == old(Total(k))
    {
      dropped := 0;
      for k := 0 to n
        invariant dropped <= k && slots == old(slots)[to := Put(Empty, kind, dropped)]
        invariant cursor == Stack(kind, old(cursor).count - dropped)
        invariant clicks == old(clicks) + k && (n <= sizes(kind) ==> dropped == k - Missed(received, old(clicks), k))
        invariant forall k :: Total(k) == old(Total(k))
      {
        ghost var before := cursor.count;
        RightClick(to);
        dropped := dropped + (before - cursor.count);
      }
    }

    /** Lays part of the stack on the cursor, one right click for each item, and puts the rest back. */
    method LayPart(from: nat, to: nat, kind: Kind, wanted: nat) returns (placed: int)
      requires |slots| == WINDOW && BOT.Has(from) && slots[from].Empty? && IsOffer(to) && slots[to].Empty?
      requires cursor.Stack? && cursor.kind == kind && wanted < cursor.count
      modifies this`slots, this`cursor, this`clicks
      ensures |slots| == WINDOW && 0 <= placed <= wanted && forall k :: Total(k) == old(Total(k))
      ensures old(AllFit(kind)) ==> AllFit(kind)
      ensures forall i :: 0 <= i < 54 ==> slots[i] == if i == to then Put(Empty, kind, placed) else old(slots)[i]
      ensures wanted <= sizes(kind) ==> placed == wanted - Missed(received, old(clicks), wanted)
      ensures Lossless() && old(cursor).count <= sizes(kind) ==>
        && placed == wanted && cursor.Empty?
        && slots == old(slots)[to := Put(Empty, kind, wanted)][from := Stack(kind, old(cursor).count - wanted)]
    {
      if Lossless() { NoneMissed(received, clicks, wanted); }
      var carried := cursor.count;
      ghost var dropped := DropSome(to, kind, wanted);
      placed := carried - cursor.count;
      LeftClick(from);
    }

    /** Lifts a stack and lays it, or what is still wanted of it, in an empty offer slot. */
    method LayStack(from: nat, to: nat, kind: Kind, wanted: nat) returns (placed: int, r: Result)
      requires |slots| == WINDOW && cursor.Empty? && wanted > 0
      requires BOT.Has(from) && Holds(slots, from, kind) && IsOffer(to) && slots[to].Empty?
      modifies this`slots, this`cursor, this`clicks
      ensures |slots| == WINDOW && forall k :: Total(k) == old(Total(k))
      ensures r.Ok? ==> 0 < placed <= wanted
      ensures r.Err? ==> r.error in {LiftFailed, LayFailed}
      // Whatever clicks are lost, what it says it placed is what the offers gained.
      ensures old(AllFit(kind)) ==> AllFit(kind) && OffersGrew(old(slots), slots, kind, placed)
      ensures r.Err? ==> placed == 0
      ensures Lossless() && Fits(old(slots), kind, sizes(kind)) ==>
        && r.Ok? && cursor.Empty? && placed == Min(wanted, CountIn(old(slots)[from], kind))
        && slots == Laid(old(slots), from, to, placed)
      // When only the lifting click is lost, the click meant to put the stack back lifts it instead.
      ensures r == Err(LiftFailed) <==> !received(old(clicks))
      ensures r == Err(LiftFailed) ==> cursor == if received(old(clicks) + 1) then old(slots)[from] else Empty
      // A whole stack is laid by one click, part of one by a right click for each item; each lost one is missing.
      ensures received(old(clicks)) && Fits(old(slots), kind, sizes(kind)) ==>
        var count, next := CountIn(old(slots)[from], kind), old(clicks) + 1;
        var laid :=
          if count > wanted then wanted - Missed(received, next, wanted) else if received(next) then count else 0;
        if laid > 0 then r.Ok? && placed == laid else r == Err(LayFailed)
    {
      placed := 0;
      ghost var fit := AllFit(kind);
      LeftClick(from);
      if cursor.Empty? {
        LeftClick(from);
        OneOfferGrew(old(slots), slots, to, kind, 0);
        return placed, Err(LiftFailed);
      }
      var carried := cursor.count;
      if carried <= wanted {
        LeftClick(to);
        if cursor.Stack? {
          LeftClick(from);
          if fit { OneOfferGrew(old(slots), slots, to, kind, 0); }
          return placed, Err(LayFailed);
        }
        OneOfferGrew(old(slots), slots, to, kind, carried);
        return carried, Ok;
      }
      placed := LayPart(from, to, kind, wanted);
      OneOfferGrew(old(slots), slots, to, kind, placed);
      if placed <= 0 { return placed, Err(LayFailed); }
      return placed, Ok;
    }

    /** Returns a stack left on the cursor to the first empty slot of the bot, else to where it came from. */
    method ClearCursor(from: nat) returns (cleared: bool)
      requires |slots| == WINDOW && BOT.Has(from)
      modifies this`slots, this`cursor, this`clicks
      ensures |slots| == WINDOW && forall k :: Total(k) == old(Total(k))
      ensures cleared == cursor.Empty? && forall i :: 0 <= i < 54 ==> slots[i] == old(slots)[i]
      ensures forall kind :: old(AllFit(kind)) ==> AllFit(kind)
      ensures old(cursor).Empty? || !received(old(clicks)) ==> slots == old(slots) && cursor == old(cursor)
      ensures old(cursor).Stack? && received(old(clicks)) ==>
        var i := SlotToClear(old(slots), from, 54);
        var (a, b) := LeftClicked(old(slots)[i], old(cursor), sizes);
        slots == old(slots)[i := a] && cursor == b
    {
      if cursor.Stack? {
        var i := 54;
        while i < 90 && slots[i].Stack?
          invariant 54 <= i <= 90 && SlotToClear(slots, from, 54) == SlotToClear(slots, from, i)
        {
          i := i + 1;
        }
        LeftClick(if i < 90 then i else from);
      }
      cleared := cursor.Empty?;
    }

    /** One stack, whole or in part, from the bot to the offer. */
    method PlaceOne(kind: Kind, wanted: nat) returns (placed: int, r: Result, ghost from: nat)
      requires |slots| == WINDOW && cursor.Empty? && wanted > 0
      modifies this`slots, this`cursor, this`clicks, this`open
      ensures |slots| == WINDOW && forall k :: Total(k) == old(Total(k))
      ensures r == Err(Closed) <==> !open
      ensures r == Err(CursorNotCleared) ==> cursor.Stack?
      ensures r.Ok? ==> 0 < placed <= wanted && cursor.Empty?
      ensures old(AllFit(kind)) ==> AllFit(kind) && OffersGrew(old(slots), slots, kind, placed)
      ensures r.Err? && r.error in {Closed, LacksItems, OffersFull} ==> cursor.Empty? && slots == old(slots)
      ensures r == Err(LacksItems) ==> SumOver(slots, CountOf(kind), BOT) == 0
      ensures r == Err(OffersFull) ==> !Roomy(slots, kind) && EmptyOffers(slots, 27) == 0
      ensures Lossless() && Fits(old(slots), kind, sizes(kind)) ==>
        && (r.Ok? || r.error in {Closed, LacksItems, OffersFull})
        && (r.Ok? ==> Progress(old(slots), slots, kind, placed, wanted, sizes(kind)))
        && (r.Ok? ==> LiftedOne(old(slots), slots, kind, wanted, from))
        && (r.Ok? ==> placed == Min(wanted, CountIn(old(slots)[from], kind)))
      ensures r.Ok? ==> BestFit(old(slots), 54, WINDOW, kind, wanted, from)
    {
      placed, from := 0, 0;
      var isOpen := StillOpen();
      if !isOpen { return placed, Err(Closed), from; }
      var best := FindBestFit(slots, 54, kind, wanted);
      if best.None? {
        SumZero(slots, CountOf(kind), 54, 90);
        return placed, Err(LacksItems), from;
      }
      isOpen := StillOpen();
      if !isOpen { return placed, Err(Closed), from; }
      var offer := FirstEmptyOffer(slots, 0);
      if offer.None? {
        FullOffersAreNotRoomy(slots, kind, best.value);
        NoEmptyOffers(slots, 27);
        return placed, Err(OffersFull), from;
      }
      if Fits(slots, kind, sizes(kind)) {
        LayingIsProgress(slots, best.value, offer.value, kind, wanted, sizes(kind));
      }
      from := best.value;
      placed, r := LayStack(best.value, offer.value, kind, wanted);
      if r.Err? { return; }
      ghost var laid := slots;
      var cleared := ClearCursor(best.value);
      if old(AllFit(kind)) { StillGrew(old(slots), laid, slots, kind, placed); }
      if !cleared { r := Err(CursorNotCleared); }
    }

    /** Turn after turn until nothing more is wanted. */
    method LayAll(kind: Kind, amount: nat) returns (r: Result, ghost lifted: seq<nat>)
      requires |slots| == WINDOW && cursor.Empty? && amount > 0
      modifies this`slots, this`cursor, this`clicks, this`open
      ensures |slots| == WINDOW && forall k :: Total(k) == old(Total(k))
      ensures r.Ok? ==> cursor.Empty?
      ensures old(AllFit(kind)) && r.Ok? ==> OffersGrew(old(slots), slots, kind, amount)
      ensures r == Err(Closed) <==> !open
      ensures r == Err(CursorNotCleared) ==> cursor.Stack?
      ensures r == Err(LacksItems) ==> SumOver(slots, CountOf(kind), BOT) == 0
      ensures r == Err(OffersFull) ==> EmptyOffers(slots, 27) == 0
      ensures Lossless() && Fits(old(slots), kind, sizes(kind)) ==>
        && (r.Ok? || r.error in {Closed, LacksItems, OffersFull}) && cursor.Empty?
        && (r.Ok? ==> Underway(old(slots), slots, kind, amount, 0, lifted, sizes(kind)))
        && (r.Err? ==> LiftedWhole(old(slots), slots, kind, lifted))
        && (r == Err(LacksItems) ==> SumOver(old(slots), CountOf(kind), BOT) < amount)
        && (r == Err(OffersFull) ==> !Roomy(old(slots), kind))
    {
      lifted := [];
      var remaining := amount;
      ghost var exact := Lossless() && Fits(slots, kind, sizes(kind));
      if exact { NoProgressYet(slots, kind, amount, sizes(kind)); }
      while remaining > 0
        invariant 0 <= remaining && |slots| == WINDOW && cursor.Empty? && (open || remaining == amount)
        invariant forall k :: Total(k) == old(Total(k))
        invariant old(AllFit(kind)) ==> AllFit(kind) && OffersGrew(old(slots), slots, kind, amount - remaining)
        invariant exact ==> Underway(old(slots), slots, kind, amount, remaining, lifted, sizes(kind))
      {
        ghost var before := slots;
        var placed, step, from := PlaceOne(kind, remaining);
        if step.Err? {
          if exact { TurnFailsRightly(old(slots), before, kind, amount, remaining, lifted, sizes(kind)); }
          return step, lifted;
        }
        if exact { OneMoreTurn(old(slots), before, slots, kind, amount, remaining, placed, lifted, from, sizes(kind)); }
        lifted := lifted + [from];
        remaining := remaining - placed;
      }
      return Ok, lifted;
    }

    /** Lays `amount` of the kind in the offer, whole stacks first. Whatever clicks are lost, Ok means that the offers
        gained exactly that. */
    method Place(kind: Kind, amount: int) returns (r: Result, ghost lifted: seq<nat>)
      requires |slots| == WINDOW
      modifies this`slots, this`cursor, this`floor, this`clicks, this`open
      ensures |slots| == WINDOW && forall k :: Total(k) == old(Total(k))
      ensures old(cursor).Empty? ==> floor == old(floor)
      ensures r.Ok? && amount > 0 ==> cursor.Empty?
      ensures Fits(old(slots), kind, sizes(kind)) && r.Ok? ==>
        OffersGrew(old(slots), slots, kind, if amount > 0 then amount else 0)
      ensures amount <= 0 ==> r.Ok? && slots == old(slots) && cursor == old(cursor)
      // Each error means what it says of the window at the end.
      ensures amount > 0 ==> (r == Err(Closed) <==> !open)
      ensures r == Err(CursorNotCleared) ==> cursor.Stack?
      ensures r == Err(LacksItems) ==> SumOver(slots, CountOf(kind), BOT) == 0
      ensures r == Err(OffersFull) ==> EmptyOffers(slots, 27) == 0
      ensures Lossless() && Fits(old(slots), kind, sizes(kind)) && amount > 0 ==>
        && (r != Err(Closed) ==> (r.Ok? || r.error in {LacksItems, OffersFull}) && cursor.Empty?)
        && (r.Ok? ==> Moved(old(slots), slots, kind, amount, BOT, GRID) && OffersOnly(old(slots), slots))
        && (r == Err(LacksItems) ==> SumOver(old(slots), CountOf(kind), BOT) < amount)
        && (r == Err(OffersFull) ==> !Roomy(old(slots), kind))
        && (r.Ok? ==> LiftedOnce(old(slots), slots, kind, amount, lifted))
        && (r.Err? ==> LiftedWhole(old(slots), slots, kind, lifted))
    {
      lifted := [];
      if amount <= 0 { return Ok, lifted; }
      var isOpen := StillOpen();
      if !isOpen { return Err(Closed), lifted; }
      if cursor.Stack? {
        ClickOutside();
        if cursor.Stack? { return Err(CursorNotCleared), lifted; }
      }
      r, lifted := LayAll(kind, amount);
    }
  }

  lemma {:induction false} SumPrefix(s: seq<Slot>, t: seq<Slot>, m: Measure, n: nat)
    requires n <= |s| && n <= |t| && s[..n] == t[..n]
    ensures Sum(s, m, 0, n) == Sum(t, m, 0, n)
  {
    if n > 0 {
      assert s[..n - 1] == s[..n][..n - 1] == t[..n - 1] && s[n - 1] == s[..n][n - 1] == t[n - 1];
      SumPrefix(s, t, m, n - 1);
    }
  }
}
