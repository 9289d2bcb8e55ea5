/** Validating the player's side of a trade, and the loop that accepts it (src/bot/trade.rs). */
module TradeAccept {
  import opened Basics
  import opened Container

  datatype TradeItem = TradeItem(kind: Kind, amount: int)
  /** `exact` rejects more than asked; `flexible` takes any amount from one up. */
  datatype Terms = Terms(offers: seq<TradeItem>, exact: bool, flexible: bool)
  datatype Problem = Unexpected(kind: Kind) | NoneFound(kind: Kind) | TooMany(kind: Kind) | Insufficient(kind: Kind)

  const GRID: nat := 54
  type Contents = s: seq<Slot> | |s| == GRID witness seq(GRID, i => Empty)

  /** The player's twelve slots: rows 0 to 2, columns 5 to 8. */
  predicate IsPlayerSlot(i: int) { 0 <= i < 27 && i % 9 >= 5 }

  function Offered(s: Contents, kind: Kind, hi: nat): nat
    requires hi <= GRID
  {
    if hi == 0 then 0 else Offered(s, kind, hi - 1) + if IsPlayerSlot(hi - 1) then CountIn(s[hi - 1], kind) else 0
  }

  function OfferedKinds(s: Contents, hi: nat): set<Kind>
    requires hi <= GRID
  {
    if hi == 0 then {}
    else OfferedKinds(s, hi - 1) + if IsPlayerSlot(hi - 1) && s[hi - 1].Stack? then {s[hi - 1].kind} else {}
  }

  /** What the player put in, kind by kind. */
  function Totals(s: Contents): map<Kind, int> {
    map kind | kind in OfferedKinds(s, GRID) :: Offered(s, kind, GRID)
  }

  /** The expected amounts; of two offers of one kind the last counts. */
  function Expected(offers: seq<TradeItem>): map<Kind, int> {
    if offers == [] then map[]
    else
      var last := offers[|offers| - 1];
      Expected(offers[..|offers| - 1])[last.kind := last.amount]
  }

  predicate Meets(got: int, wanted: int, terms: Terms) {
    if terms.flexible then got >= 1 else got >= wanted && (terms.exact ==> got == wanted)
  }

  /** The player's side is what was agreed: nothing else in it, and of each kind as much as the terms ask. */
  ghost predicate Acceptable(s: Contents, terms: Terms) {
    var expected := Expected(terms.offers);
    && (forall i :: IsPlayerSlot(i) && s[i].Stack? ==> s[i].kind in expected)
    && (forall kind :: kind in expected ==> Meets(Offered(s, kind, GRID), expected[kind], terms))
  }

  lemma {:induction false} KindsAreOffered(s: Contents, hi: nat, kind: Kind)
    requires hi <= GRID
    ensures kind in OfferedKinds(s, hi) <==> Offered(s, kind, hi) > 0
    ensures kind in OfferedKinds(s, hi) <==>
      exists i :: 0 <= i < hi && IsPlayerSlot(i) && s[i].Stack? && s[i].kind == kind
  {
    if hi > 0 { KindsAreOffered(s, hi - 1, kind); }
  }

  lemma {:induction false} ExpectedIsEmpty(offers: seq<TradeItem>)
    ensures Expected(offers) == map[] <==> offers == []
  {
    if offers != [] { assert offers[|offers| - 1].kind in Expected(offers); }
  }

  /** Adds up the player's slots, noting kinds that were not asked for. */
  method ScanPlayerSlots(s: Contents, expected: map<Kind, int>) returns (found: map<Kind, int>, problems: seq<Problem>)
    ensures found.Keys == OfferedKinds(s, GRID)
    ensures forall kind :: kind in found ==> found[kind] == Offered(s, kind, GRID)
    ensures problems == [] <==> forall i :: IsPlayerSlot(i) && s[i].Stack? ==> s[i].kind in expected
  {
    found, problems := map[], [];
    for i := 0 to GRID
      invariant found.Keys == OfferedKinds(s, i) && forall kind :: kind in found ==> found[kind] == Offered(s, kind, i)
      invariant problems == [] <==> forall k :: 0 <= k < i && IsPlayerSlot(k) && s[k].Stack? ==> s[k].kind in expected
    {
      if IsPlayerSlot(i) && s[i].Stack? {
        var kind := s[i].kind;
        KindsAreOffered(s, i, kind);
        found := found[kind := (if kind in found then found[kind] else 0) + s[i].count];
        if kind !in expected { problems := problems + [Unexpected(kind)]; }
      }
    }
  }

  /** Holds each expected kind against the terms, in whatever order the map gives. */
  method CheckAmounts(s: Contents, found: map<Kind, int>, expected: map<Kind, int>, terms: Terms)
    returns (problems: seq<Problem>)
    requires found.Keys == OfferedKinds(s, GRID)
    requires forall kind :: kind in found ==> found[kind] == Offered(s, kind, GRID)
    ensures problems == [] <==> forall kind :: kind in expected ==> Meets(Offered(s, kind, GRID), expected[kind], terms)
  {
    problems := [];
    var left := expected.Keys;
    while left != {}
      invariant left <= expected.Keys
      invariant problems == [] <==> forall kind :: kind in expected.Keys - left ==>
        Meets(Offered(s, kind, GRID), expected[kind], terms)
      decreases |left|
    {
      var kind :| kind in left;
      KindsAreOffered(s, GRID, kind);
      var got := if kind in found then found[kind] else 0;
      if terms.flexible {
        if got < 1 { problems := problems + [NoneFound(kind)]; }
      } else if got > expected[kind] {
        if terms.exact { problems := problems + [TooMany(kind)]; }
      } else if got < expected[kind] {
        problems := problems + [Insufficient(kind)];
      }
      left := left - {kind};
    }
  }

  /** Finds no problem exactly with an acceptable offer. */
  method ValidatePlayerItems(s: Contents, terms: Terms) returns (found: map<Kind, int>, problems: seq<Problem>)
    ensures problems == [] <==> Acceptable(s, terms)
    ensures problems == [] ==> found == Totals(s)
  {
    ExpectedIsEmpty(terms.offers);
    if terms.offers == [] {
      found, problems := map[], [];
      for i := 0 to GRID
        invariant problems == [] <==> forall k :: 0 <= k < i && IsPlayerSlot(k) ==> s[k].Empty?
      {
        if IsPlayerSlot(i) && s[i].Stack? { problems := problems + [Unexpected(s[i].kind)]; }
      }
      if problems == [] {
        assert OfferedKinds(s, GRID) == {} by {
          forall kind ensures kind !in OfferedKinds(s, GRID) { KindsAreOffered(s, GRID, kind); }
        }
      }
    } else {
      var expected := Expected(terms.offers);
      var more;
      found, problems := ScanPlayerSlots(s, expected);
      more := CheckAmounts(s, found, expected, terms);
      problems := problems + more;
      assert problems == [] ==> found == Totals(s);
    }
  }

  // ----- Did the trade go through? -----

  /** Four fifths of what was placed, but at least one. */
  function Threshold(amount: int): int { if amount * 4 / 5 < 1 then 1 else amount * 4 / 5 }

  function Carried(inventory: seq<Slot>, kind: Kind): int { Sum(inventory, CountOf(kind), 0, |inventory|) }

  /** The bot still carries enough of something it placed to take the trade for rejected. */
  predicate LooksRejected(inventory: seq<Slot>, placed: seq<TradeItem>) {
    exists i :: 0 <= i < |placed| && placed[i].amount > 0 &&
      Carried(inventory, placed[i].kind) >= Threshold(placed[i].amount)
  }

  /** When the guess from the inventory is right. `others` is what the bot carries of a kind besides what it placed. */
  lemma GuessIsRightIff(inventory: seq<Slot>, placed: seq<TradeItem>, others: Kind -> nat, returned: bool)
    requires forall i :: 0 <= i < |placed| ==>
      Carried(inventory, placed[i].kind) ==
        others(placed[i].kind) + if returned && placed[i].amount > 0 then placed[i].amount else 0
    ensures (LooksRejected(inventory, placed) <==> returned) <==>
      if returned then exists i :: 0 <= i < |placed| && placed[i].amount > 0
      else forall i :: 0 <= i < |placed| && placed[i].amount > 0 ==>
        others(placed[i].kind) < Threshold(placed[i].amount)
  {
    if returned && exists i :: 0 <= i < |placed| && placed[i].amount > 0 {
      var i :| 0 <= i < |placed| && placed[i].amount > 0;
      assert Carried(inventory, placed[i].kind) >= Threshold(placed[i].amount);
    }
  }

  // ----- The accept loop -----

  const GRAY_DYE: Kind := 0
  const ACCEPT_PAUSE: nat := 250

  predicate IsStatusSlot(i: int) { 36 <= i < 54 && i % 9 >= 5 }

  predicate Ready(s: Contents) { forall i :: 0 <= i < GRID && IsStatusSlot(i) ==> CountIn(s[i], GRAY_DYE) == 0 }

  datatype Event = Read(at: int, contents: Contents) | Click(at: int)
  datatype Error = Invalid | Rejected | ClosedEarly | TimedOut
  datatype Result = Ok(received: map<Kind, int>) | Err(error: Error)

  ghost predicate Good(e: Event, terms: Terms) { e.Read? && Ready(e.contents) && Acceptable(e.contents, terms) }

  /** Every accept click comes straight after an acceptable snapshot, with nothing read in between. */
  ghost predicate ClicksValidated(trace: seq<Event>, terms: Terms) {
    forall k :: 0 <= k < |trace| && trace[k].Click? ==> k > 0 && Good(trace[k - 1], terms)
  }

  /** Accept clicks are a quarter of a second apart, and from the start. */
  ghost predicate ClicksSpaced(trace: seq<Event>, start: int) {
    && (forall k :: 0 <= k < |trace| && trace[k].Click? ==> trace[k].at >= start + ACCEPT_PAUSE)
    && (forall j, k :: 0 <= j < k < |trace| && trace[j].Click? && trace[k].Click? ==>
      trace[k].at >= trace[j].at + ACCEPT_PAUSE)
  }

  /** An accept click may follow the snapshot at `k`: a quarter of a second has passed since the start and since every
      earlier click. */
  ghost predicate Due(trace: seq<Event>, k: nat, start: int)
    requires k < |trace|
  {
    && trace[k].at >= start + ACCEPT_PAUSE
    && forall j :: 0 <= j < k && trace[j].Click? ==> trace[k].at >= trace[j].at + ACCEPT_PAUSE
  }

  /** And every acceptable snapshot that it may follow, it follows. */
  ghost predicate ClicksWhenDue(trace: seq<Event>, terms: Terms, start: int) {
    forall k :: 0 <= k < |trace| && Good(trace[k], terms) && Due(trace, k, start) ==>
      k + 1 < |trace| && trace[k + 1].Click?
  }

  /** Every snapshot of a ready player was acceptable. */
  ghost predicate NeverInvalid(trace: seq<Event>, terms: Terms) {
    forall k :: 0 <= k < |trace| && trace[k].Read? && Ready(trace[k].contents) ==> Acceptable(trace[k].contents, terms)
  }

  /** The last ready snapshot is at `k`. */
  ghost predicate LastReady(trace: seq<Event>, k: nat) {
    && k < |trace| && trace[k].Read? && Ready(trace[k].contents)
    && forall j :: k < j < |trace| && trace[j].Read? ==> !Ready(trace[j].contents)
  }

  /** What the loop's variables say about the run so far. */
  ghost predicate Seen(trace: seq<Event>, terms: Terms, start: int, lastClick: int, accepted: bool,
        received: Option<map<Kind, int>>)
  {
    && ClicksValidated(trace, terms) && ClicksSpaced(trace, start) && NeverInvalid(trace, terms) && start <= lastClick
    && (forall k :: 0 <= k < |trace| && trace[k].Click? ==> trace[k].at <= lastClick)
    && (lastClick == start || exists k :: 0 <= k < |trace| && trace[k].Click? && trace[k].at == lastClick)
    && (accepted ==> received.Some?) && (accepted <==> Clicked(trace))
    && (received.Some? ==> LastGood(trace, terms, received.value))
  }

  /** And so far it clicked whenever it was due. */
  ghost predicate Going(trace: seq<Event>, terms: Terms, start: int, lastClick: int, accepted: bool,
        received: Option<map<Kind, int>>)
  {
    Seen(trace, terms, start, lastClick, accepted, received) && ClicksWhenDue(trace, terms, start)
  }

  /** What the result says of the run. The menu closed: the trade is over if the bot had accepted, and what it carries
      tells how. */
  ghost predicate Means(r: Result, inventory: Option<seq<Slot>>, trace: seq<Event>, terms: Terms, start: int,
        placed: seq<TradeItem>)
  {
    && ClicksValidated(trace, terms) && ClicksSpaced(trace, start) && ClicksWhenDue(trace, terms, start)
    && (r == Err(Invalid) <==> !NeverInvalid(trace, terms))
    && (r == Err(ClosedEarly) ==> !Clicked(trace))
    && (r.Ok? || r == Err(Rejected) ==> Clicked(trace))
    && (r.Ok? ==> LastGood(trace, terms, r.received) && (inventory.Some? ==> !LooksRejected(inventory.value, placed)))
    && (r == Err(Rejected) ==> inventory.Some? && LooksRejected(inventory.value, placed))
  }

  ghost predicate Clicked(trace: seq<Event>) { exists k :: 0 <= k < |trace| && trace[k].Click? }

  /** The last snapshot of a ready player was acceptable, and this is what was in it. */
  ghost predicate LastGood(trace: seq<Event>, terms: Terms, received: map<Kind, int>) {
    exists k: nat :: LastReady(trace, k) && Good(trace[k], terms) && received == Totals(trace[k].contents)
  }

  lemma QuietRead(trace: seq<Event>, e: Event, terms: Terms, start: int, lastClick: int, accepted: bool,
        received: Option<map<Kind, int>>)
    requires Seen(trace, terms, start, lastClick, accepted, received) && e.Read? && !Ready(e.contents)
    ensures Seen(trace + [e], terms, start, lastClick, accepted, received)
  {
    ClickedStill(trace, e);
    if lastClick != start { ClickAtStill(trace, e, lastClick); }
    if received.Some? { KeepsLastGood(trace, e, terms, received.value); }
  }

  lemma ClickedStill(trace: seq<Event>, e: Event)
    ensures Clicked(trace + [e]) <==> Clicked(trace) || e.Click?
  {
    var trace' := trace + [e];
    assert trace'[|trace|] == e;
    if k :| 0 <= k < |trace| && trace[k].Click? { assert trace'[k].Click?; }
  }

  lemma ClickAtStill(trace: seq<Event>, e: Event, at: int)
    requires exists k :: 0 <= k < |trace| && trace[k].Click? && trace[k].at == at
    ensures exists k :: 0 <= k < |trace + [e]| && (trace + [e])[k].Click? && (trace + [e])[k].at == at
  {
    var k :| 0 <= k < |trace| && trace[k].Click? && trace[k].at == at;
    assert (trace + [e])[k].Click?;
  }

  lemma DuePrefix(trace: seq<Event>, more: seq<Event>, k: nat, start: int)
    requires k < |trace|
    ensures Due(trace + more, k, start) <==> Due(trace, k, start)
  {
    assert forall j :: 0 <= j < |trace| ==> (trace + more)[j] == trace[j];
  }

  /** A snapshot that is not acceptable or comes too soon after a click needs no click, and one that is due gets it. */
  lemma DueStill(trace: seq<Event>, e: Event, terms: Terms, start: int, lastClick: int)
    requires ClicksWhenDue(trace, terms, start) && e.Read?
    requires Good(e, terms) ==> e.at < lastClick + ACCEPT_PAUSE
    requires lastClick == start || exists k :: 0 <= k < |trace| && trace[k].Click? && trace[k].at == lastClick
    ensures ClicksWhenDue(trace + [e], terms, start)
  {
    var trace' := trace + [e];
    assert forall j :: 0 <= j < |trace| ==> trace'[j] == trace[j];
    forall k | 0 <= k < |trace'| && Good(trace'[k], terms) && Due(trace', k, start)
      ensures k + 1 < |trace'| && trace'[k + 1].Click?
    {
      if k < |trace| { DuePrefix(trace, [e], k, start); }
    }
  }

  lemma DueDone(trace: seq<Event>, e: Event, c: Event, terms: Terms, start: int)
    requires ClicksWhenDue(trace, terms, start) && c.Click?
    ensures ClicksWhenDue((trace + [e]) + [c], terms, start)
  {
    var trace' := (trace + [e]) + [c];
    assert trace'[|trace|] == e && trace'[|trace| + 1] == c;
    forall k | 0 <= k < |trace'| && Good(trace'[k], terms) && Due(trace', k, start)
      ensures k + 1 < |trace'| && trace'[k + 1].Click?
    {
      if k < |trace| {
        assert trace' == trace + [e, c];
        DuePrefix(trace, [e, c], k, start);
        assert trace'[k] == trace[k];
      }
    }
  }

  lemma KeepsLastGood(trace: seq<Event>, e: Event, terms: Terms, received: map<Kind, int>)
    requires LastGood(trace, terms, received) && (e.Click? || !Ready(e.contents))
    ensures LastGood(trace + [e], terms, received)
  {
    var k: nat :| LastReady(trace, k) && Good(trace[k], terms) && received == Totals(trace[k].contents);
    assert LastReady(trace + [e], k);
  }

  lemma GoodRead(trace: seq<Event>, e: Event, terms: Terms, start: int, lastClick: int, accepted: bool,
        received: Option<map<Kind, int>>)
    requires Seen(trace, terms, start, lastClick, accepted, received) && Good(e, terms)
    ensures Seen(trace + [e], terms, start, lastClick, accepted, Some(Totals(e.contents)))
  {
    ClickedStill(trace, e);
    if lastClick != start { ClickAtStill(trace, e, lastClick); }
    assert LastReady(trace + [e], |trace|);
  }

  lemma ClickAfterGoodRead(trace: seq<Event>, e: Event, terms: Terms, start: int, lastClick: int, accepted: bool,
        received: Option<map<Kind, int>>)
    requires Seen(trace, terms, start, lastClick, accepted, received) && received.Some?
    requires e.Click? && e.at >= lastClick + ACCEPT_PAUSE && trace != [] && Good(trace[|trace| - 1], terms)
    ensures Seen(trace + [e], terms, start, e.at, true, received)
  {
    KeepsLastGood(trace, e, terms, received.value);
    assert (trace + [e])[|trace|].Click?;
  }

  class Session {
    var now: int
    var trace: seq<Event>
    /** Whether the last look found the trade menu open. */
    var menuOpen: bool
    /** How long the bot has chosen to sleep since it last looked at the offer, and the longest it ever did. */
    ghost var idle: nat
    ghost var longest: nat

    constructor (now: int)
      ensures this.now == now && trace == [] && idle == longest == 0
    {
      this.now, trace, menuOpen := now, [], true;
      idle, longest := 0, 0;
    }

    method Sleep(ms: nat)
      modifies this`now, this`idle, this`longest
      ensures now >= old(now) + ms
      ensures idle == old(idle) + ms && longest == if idle > old(longest) then idle else old(longest)
    {
      var extra: nat :| 0 <= extra;
      now := now + ms + extra;
      idle := idle + ms;
      if idle > longest { longest := idle; }
    }

    method MenuIsOpen() returns (yes: bool)
      modifies this`menuOpen
      ensures yes == menuOpen
    {
      menuOpen := *;
      yes := menuOpen;
    }

    method ReadContents() returns (contents: Option<Contents>)
      modifies this`trace, this`idle
      ensures idle == 0
      ensures contents.None? ==> trace == old(trace)
      ensures contents.Some? ==> trace == old(trace) + [Read(now, contents.value)]
    {
      contents := *;
      idle := 0;
      if contents.Some? { trace := trace + [Read(now, contents.value)]; }
    }

    method ClickAccept()
      modifies this`trace
      ensures trace == old(trace) + [Click(now)]
    {
      trace := trace + [Click(now)];
    }

    /** After the window closed: looks whether the placed items came back. An inventory that cannot be opened tells
        nothing. */
    method VerifyClosed(placed: seq<TradeItem>, received: map<Kind, int>)
      returns (r: Result, inventory: Option<seq<Slot>>)
      modifies this`now, this`idle, this`longest
      ensures now >= old(now)
      ensures r == if inventory.Some? && LooksRejected(inventory.value, placed) then Err(Rejected) else Ok(received)
    {
      Sleep(300);
      inventory := *;
      if inventory.Some? {
        for i := 0 to |placed|
          invariant forall k :: 0 <= k < i && placed[k].amount > 0 ==>
            Carried(inventory.value, placed[k].kind) < Threshold(placed[k].amount)
        {
          if placed[i].amount > 0 && Carried(inventory.value, placed[i].kind) >= Threshold(placed[i].amount) {
            return Err(Rejected), inventory;
          }
        }
      }
      return Ok(received), inventory;
    }

    /** One look at the offer: once the player is ready it is looked over, and accepted if a click is due. */
    method Look(contents: Contents, terms: Terms, lastClick: int, accepted: bool, ghost before: seq<Event>,
          ghost start: int, ghost received: Option<map<Kind, int>>)
      returns (valid: bool, found: Option<map<Kind, int>>, clicked: bool)
      requires Going(before, terms, start, lastClick, accepted, received) && lastClick <= now
      requires trace == before + [Read(now, contents)]
      modifies this`trace
      ensures !valid ==> forall placed :: Means(Err(Invalid), None, trace, terms, start, placed)
      ensures valid ==>
        var received' := if found.Some? then found else received;
        Going(trace, terms, start, if clicked then now else lastClick, accepted || clicked, received')
      ensures clicked ==> found.Some?
    {
      ghost var e := Read(now, contents);
      if !Ready(contents) {
        QuietRead(before, e, terms, start, lastClick, accepted, received);
        DueStill(before, e, terms, start, lastClick);
        return true, None, false;
      }
      var items, problems := ValidatePlayerItems(contents, terms);
      if problems != [] {
        InvalidRead(before, e, terms, start);
        DueStill(before, e, terms, start, lastClick);
        return false, None, false;
      }
      found := Some(items);
      GoodRead(before, e, terms, start, lastClick, accepted, received);
      clicked := now - lastClick >= ACCEPT_PAUSE;
      if clicked {
        ClickAfterGoodRead(trace, Click(now), terms, start, lastClick, accepted, found);
        DueDone(before, e, Click(now), terms, start);
        ClickAccept();
      } else {
        DueStill(before, e, terms, start, lastClick);
      }
      valid := true;
    }

    /** One turn of the loop, which ends early once the window is found closed or the offer is not what was agreed. */
    method Tick(terms: Terms, lastClick: int, accepted: bool, received: Option<map<Kind, int>>, ghost start: int)
      returns (isOpen: bool, valid: bool, lastClick': int, accepted': bool, received': Option<map<Kind, int>>)
      requires Going(trace, terms, start, lastClick, accepted, received)
      requires lastClick <= now && idle <= 200 && longest <= 200
      modifies this
      ensures isOpen == menuOpen && lastClick' <= now && idle <= 200 && longest <= 200
      ensures now >= old(now) && (isOpen && valid ==> now >= old(now) + 100)
      ensures !valid ==> forall placed :: Means(Err(Invalid), None, trace, terms, start, placed)
      ensures valid ==> Going(trace, terms, start, lastClick', accepted', received')
    {
      valid, lastClick', accepted', received' := true, lastClick, accepted, received;
      isOpen := MenuIsOpen();
      if !isOpen { return; }
      ghost var before := trace;
      var contents := ReadContents();
      if contents.None? {
        isOpen := MenuIsOpen();
        if !isOpen { return; }
      } else {
        var found, clicked;
        valid, found, clicked := Look(contents.value, terms, lastClick, accepted, before, start, received);
        if !valid { return; }
        if found.Some? { received' := found; }
        if clicked {
          lastClick', accepted' := now, true;
          Sleep(100);
          isOpen := MenuIsOpen();
          if !isOpen { return; }
        }
      }
      Sleep(100);
    }

    /** The window has closed: a success or a rejection after an accept click, too early otherwise. */
    method Settle(accepted: bool, placed: seq<TradeItem>, received: Option<map<Kind, int>>, ghost terms: Terms,
          ghost start: int, ghost lastClick: int)
      returns (r: Result, inventory: Option<seq<Slot>>)
      requires Going(trace, terms, start, lastClick, accepted, received)
      modifies this`now, this`idle, this`longest
      ensures Means(r, inventory, trace, terms, start, placed)
      ensures r.Err? ==> r.error in {Rejected, ClosedEarly}
    {
      if accepted && received.Some? {
        r, inventory := VerifyClosed(placed, received.value);
      } else {
        r, inventory := Err(ClosedEarly), None;
      }
    }

    /** Waits for the player, accepts, and reports what was received. */
    method AcceptLoop(terms: Terms, placed: seq<TradeItem>, timeout: int)
      returns (r: Result, inventory: Option<seq<Slot>>)
      requires trace == [] && longest == 0
      modifies this
      ensures Means(r, inventory, trace, terms, old(now), placed)
      // It waits out its time, and looks at the offer at least after every two tenths of a second it sleeps.
      ensures r == Err(TimedOut) ==> now - old(now) >= timeout && menuOpen && longest <= 200
      ensures r.Ok? || r.error in {Rejected, ClosedEarly} ==> !menuOpen
    {
      idle := 0;
      var start, lastClick := now, now;
      var received: Option<map<Kind, int>> := None;
      var isOpen, valid, accepted := true, true, false;
      while now - start < timeout
        invariant lastClick <= now && idle <= 200 && longest <= 200
        invariant Going(trace, terms, start, lastClick, accepted, received)
        decreases timeout - (now - start)
      {
        isOpen, valid, lastClick, accepted, received := Tick(terms, lastClick, accepted, received, start);
        if !valid { return Err(Invalid), None; }
        if !isOpen {
          r, inventory := Settle(accepted, placed, received, terms, start, lastClick);
          return;
        }
      }
      isOpen := MenuIsOpen();
      if !isOpen {
        r, inventory := Settle(accepted, placed, received, terms, start, lastClick);
        return;
      }
      return Err(TimedOut), None;
    }
  }

  lemma InvalidRead(trace: seq<Event>, e: Event, terms: Terms, start: int)
    requires ClicksValidated(trace, terms) && ClicksSpaced(trace, start) && e.Read? && Ready(e.contents)
    requires !Acceptable(e.contents, terms)
    ensures ClicksValidated(trace + [e], terms) && ClicksSpaced(trace + [e], start) && !NeverInvalid(trace + [e], terms)
  {
    assert (trace + [e])[|trace|] == e;
  }
}
