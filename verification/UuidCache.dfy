/** The bounded TTL cache of resolved names (src/mojang.rs). Times are in milliseconds. */
module UuidCache {
  import opened Basics

  type Time = int

  const TTL: nat := 300_000
  const NEG_TTL: nat := 30_000
  const MAX_ENTRIES: nat := 4096

  datatype CachedEntry =
    | Found(uuid: string, fetchedAt: Time, lastAccess: Time)
    | NotFound(storedAt: Time, lastAccess: Time)
    | RateLimited(until: Time, lastAccess: Time)
  {
    predicate IsFresh(now: Time) {
      match this
      case Found(_, fetchedAt, _) => now - fetchedAt < TTL
      case NotFound(storedAt, _) => now - storedAt < NEG_TTL
      case RateLimited(until, _) => now < until
    }

    function Touched(now: Time): CachedEntry {
      match this
      case Found(uuid, fetchedAt, _) => Found(uuid, fetchedAt, now)
      case _ => this
    }
  }

  /** The key of a user name. */
  function KeyOf(username: string): string {
    seq(|username|, i requires 0 <= i < |username| => Lower(username[i]))
  }

  ghost predicate SameButCase(a: string, b: string) {
    |a| == |b| && forall i :: 0 <= i < |a| ==> Lower(a[i]) == Lower(b[i])
  }

  /** Two names share an entry exactly when they differ in ASCII case alone. */
  lemma KeysAgreeIff(a: string, b: string)
    ensures KeyOf(a) == KeyOf(b) <==> SameButCase(a, b)
  {
    if KeyOf(a) == KeyOf(b) {
      assert |KeyOf(a)| == |KeyOf(b)|;
      forall i | 0 <= i < |a| ensures Lower(a[i]) == Lower(b[i]) {
        assert KeyOf(a)[i] == KeyOf(b)[i];
      }
    }
  }

  datatype Answer = Uuid(uuid: string) | NoSuchUser | CoolingDown(remaining: Time)
  type Cache = map<string, CachedEntry>

  function AnswerOf(e: CachedEntry, now: Time): Answer {
    match e
    case Found(uuid, _, _) => Uuid(uuid)
    case NotFound(_, _) => NoSuchUser
    case RateLimited(until, _) => CoolingDown(until - now)
  }

  function Swept(c: Cache, now: Time): (r: Cache)
    ensures r.Keys <= c.Keys
  {
    map k | k in c && c[k].IsFresh(now) :: c[k]
  }

  /** Eviction order: negatives before positives, then the least recently used. */
  predicate NoLater(a: CachedEntry, b: CachedEntry) {
    if a.Found? == b.Found? then a.lastAccess <= b.lastAccess else b.Found?
  }

  predicate IsOldest(c: Cache, k: string) { k in c && forall j :: j in c ==> NoLater(c[k], c[j]) }

  /** The cache with room for one more: swept when full, and short of `victim` when still full. */
  function Evicted(c: Cache, now: Time, victim: string): Cache {
    if |c| < MAX_ENTRIES then c
    else if |Swept(c, now)| < MAX_ENTRIES then Swept(c, now)
    else Swept(c, now) - {victim}
  }

  predicate MayEvict(c: Cache, now: Time, victim: string) {
    |c| >= MAX_ENTRIES && |Swept(c, now)| >= MAX_ENTRIES ==> IsOldest(Swept(c, now), victim)
  }

  lemma {:induction false} SubmapSize(c: Cache, d: Cache)
    requires c.Keys <= d.Keys
    ensures |c| <= |d|
  {
    assert d.Keys == c.Keys + (d.Keys - c.Keys);
    assert |c.Keys| == |c| && |d.Keys| == |d|;
  }

  /** Eviction makes room, loses fresh entries only one at a time, and a positive one only when no negative is left. */
  lemma EvictionMakesRoom(c: Cache, now: Time, victim: string)
    requires |c| <= MAX_ENTRIES && MayEvict(c, now, victim)
    ensures
      var c' := Evicted(c, now, victim);
      && |c'| < MAX_ENTRIES
      && (forall k :: k in c' ==> k in c && c'[k] == c[k])
      && (forall k :: k in c && c[k].IsFresh(now) && k !in c' ==> k == victim)
      && (victim in c && victim !in c' && c[victim].IsFresh(now) && c[victim].Found? ==> forall k :: k in c' ==>
        c'[k].Found? && c[victim].lastAccess <= c'[k].lastAccess)
  {
    var swept := Swept(c, now);
    SubmapSize(swept, c);
    if |c| >= MAX_ENTRIES && |swept| >= MAX_ENTRIES {
      assert swept.Keys == (swept - {victim}).Keys + {victim};
      assert |swept.Keys| == |swept| && |(swept - {victim}).Keys| == |swept - {victim}|;
    }
  }

  // ----- The cache as the program keeps it -----

  /** A resolver outcome that was cached, and when. */
  datatype Outcome = Outcome(key: string, answer: Answer, at: Time)

  /** The entry is that outcome. */
  predicate Records(e: CachedEntry, k: string, o: Outcome) {
    o.key == k &&
    match e
    case Found(uuid, fetchedAt, _) => o.answer == Uuid(uuid) && o.at == fetchedAt
    case NotFound(storedAt, _) => o.answer == NoSuchUser && o.at == storedAt
    case RateLimited(until, _) => o.answer.CoolingDown? && o.at + o.answer.remaining == until
  }

  ghost predicate Known(e: CachedEntry, k: string, outcomes: set<Outcome>) {
    exists o :: o in outcomes && Records(e, k, o)
  }

  lemma TouchedIsKnown(e: CachedEntry, k: string, now: Time, outcomes: set<Outcome>)
    requires Known(e, k, outcomes)
    ensures Known(e.Touched(now), k, outcomes)
  {
    var o :| o in outcomes && Records(e, k, o);
    assert Records(e.Touched(now), k, o);
  }

  /** The answer is what the resolver said of this key, within the time to live of what it said. */
  predicate Backs(o: Outcome, key: string, answer: Answer, now: Time) {
    o.key == key &&
    match answer
    case Uuid(uuid) => o.answer == answer && now - o.at < TTL
    case NoSuchUser => o.answer == answer && now - o.at < NEG_TTL
    case CoolingDown(remaining) => o.answer.CoolingDown? && remaining == o.at + o.answer.remaining - now > 0
  }

  class UuidCache {
    var entries: Cache
    ghost var outcomes: set<Outcome>

    constructor ()
      ensures entries == map[] && outcomes == {} && Valid()
    {
      entries, outcomes := map[], {};
    }

    /** Never over the cap, and every entry was a resolver's outcome for its key. */
    ghost predicate Valid() reads this {
      && |entries| <= MAX_ENTRIES
      && forall k :: k in entries ==> Known(entries[k], k, outcomes)
    }

    /** A fresh entry answers, with an outcome for this key no older than its time to live. */
    method CheckCache(key: string, now: Time) returns (answer: Option<Answer>)
      requires Valid()
      modifies this`entries
      ensures Valid()
      ensures answer == (if key in old(entries) &&
        old(entries)[key].IsFresh(now) then Some(AnswerOf(old(entries)[key], now)) else None)
      ensures entries == (if answer.Some? then old(entries)[key := old(entries)[key].Touched(now)] else old(entries))
      ensures answer.Some? ==> exists o :: o in outcomes && Backs(o, key, answer.value, now)
    {
      if key !in entries || !entries[key].IsFresh(now) { return None; }
      answer := Some(AnswerOf(entries[key], now));
      ghost var o :| o in outcomes && Records(entries[key], key, o);
      assert Backs(o, key, answer.value, now);
      TouchedIsKnown(entries[key], key, now, outcomes);
      if entries[key].Found? {
        entries := entries[key := Found(entries[key].uuid, entries[key].fetchedAt, now)];
      }
      assert entries.Keys == old(entries).Keys;
      assert |entries.Keys| == |entries| && |old(entries).Keys| == |old(entries)|;
    }

    method FindOldest() returns (oldest: string)
      requires entries != map[]
      ensures IsOldest(entries, oldest)
    {
      oldest :| oldest in entries;
      var left := entries.Keys - {oldest};
      while left != {}
        invariant left <= entries.Keys && oldest in entries
        invariant forall k :: k in entries && k !in left ==> NoLater(entries[oldest], entries[k])
        decreases |left|
      {
        var k :| k in left;
        if !NoLater(entries[oldest], entries[k]) { oldest := k; }
        left := left - {k};
      }
    }

    method EvictIfNeeded(now: Time) returns (ghost victim: string)
      requires Valid()
      modifies this`entries
      ensures Valid() && |entries| < MAX_ENTRIES
      ensures MayEvict(old(entries), now, victim) && entries == Evicted(old(entries), now, victim)
    {
      victim := "";
      if |entries| < MAX_ENTRIES { return; }
      ghost var all := entries;
      entries := Swept(entries, now);
      SubmapSize(entries, all);
      if |entries| < MAX_ENTRIES { return; }
      assert entries != map[];
      var oldest := FindOldest();
      victim := oldest;
      EvictionMakesRoom(all, now, victim);
      entries := entries - {oldest};
    }

    /** Caches a resolver's outcome; a rate limit without a hint cools down for thirty seconds. */
    method Insert(key: string, e: CachedEntry, now: Time, ghost o: Outcome) returns (ghost victim: string)
      requires Valid() && Records(e, key, o)
      modifies this
      ensures Valid() && outcomes == old(outcomes) + {o}
      ensures MayEvict(old(entries), now, victim) && entries == Evicted(old(entries), now, victim)[key := e]
    {
      victim := EvictIfNeeded(now);
      ghost var before := entries;
      entries := entries[key := e];
      outcomes := outcomes + {o};
      assert entries.Keys == before.Keys + {key};
      assert |entries.Keys| == |entries| && |before.Keys| == |before|;
    }

    method InsertFound(key: string, uuid: string, now: Time) returns (ghost victim: string)
      requires Valid()
      modifies this
      ensures Valid() && outcomes == old(outcomes) + {Outcome(key, Uuid(uuid), now)}
      ensures MayEvict(old(entries), now, victim)
      ensures entries == Evicted(old(entries), now, victim)[key := Found(uuid, now, now)]
    {
      victim := Insert(key, Found(uuid, now, now), now, Outcome(key, Uuid(uuid), now));
    }

    method InsertNotFound(key: string, now: Time) returns (ghost victim: string)
      requires Valid()
      modifies this
      ensures Valid() && outcomes == old(outcomes) + {Outcome(key, NoSuchUser, now)}
      ensures MayEvict(old(entries), now, victim)
      ensures entries == Evicted(old(entries), now, victim)[key := NotFound(now, now)]
    {
      victim := Insert(key, NotFound(now, now), now, Outcome(key, NoSuchUser, now));
    }

    method InsertRateLimited(key: string, retryAfter: Option<nat>, now: Time) returns (ghost victim: string)
      requires Valid()
      modifies this
      ensures
        var cooldown := if retryAfter.Some? then retryAfter.value else NEG_TTL;
        && Valid() && outcomes == old(outcomes) + {Outcome(key, CoolingDown(cooldown), now)}
        && MayEvict(old(entries), now, victim) &&
          entries == Evicted(old(entries), now, victim)[key := RateLimited(now + cooldown, now)]
    {
      var cooldown := if retryAfter.Some? then retryAfter.value else NEG_TTL;
      victim := Insert(key, RateLimited(now + cooldown, now), now, Outcome(key, CoolingDown(cooldown), now));
    }

    /** The synchronous lookup answers only with a fresh positive entry, under any casing of the name. */
    method LookupCachedUuid(username: string, now: Time) returns (uuid: Option<string>)
      requires Valid()
      modifies this`entries
      ensures Valid()
      ensures
        var key := KeyOf(username);
        uuid == if key in old(entries) && old(entries)[key].Found? && old(entries)[key].IsFresh(now)
                then Some(old(entries)[key].uuid) else None
      ensures
        var key := KeyOf(username);
        entries == if uuid.Some? then old(entries)[key := old(entries)[key].Touched(now)] else old(entries)
    {
      var key := KeyOf(username);
      if key in entries && entries[key].Found? && now - entries[key].fetchedAt < TTL {
        uuid := Some(entries[key].uuid);
        TouchedIsKnown(entries[key], key, now, outcomes);
        entries := entries[key := Found(entries[key].uuid, entries[key].fetchedAt, now)];
        assert entries.Keys == old(entries).Keys;
        assert |entries.Keys| == |entries| && |old(entries).Keys| == |old(entries)|;
      } else {
        uuid := None;
      }
    }

    method CleanupUuidCache(now: Time)
      requires Valid()
      modifies this`entries
      ensures Valid() && entries == Swept(old(entries), now)
    {
      entries := Swept(entries, now);
      SubmapSize(entries, old(entries));
    }
  }

  // ----- Runs: cleanups never show -----

  datatype Event =
    | Check(name: string, at: Time)
    | Lookup(name: string, at: Time)
    | Store(name: string, entry: CachedEntry, victim: string, at: Time)
    | Cleanup(at: Time)

  function Touch(c: Cache, key: string, now: Time): Cache {
    if key in c && c[key].IsFresh(now) then c[key := c[key].Touched(now)] else c
  }

  function Step(c: Cache, e: Event): Cache {
    match e
    case Check(name, at) => Touch(c, KeyOf(name), at)
    case Lookup(name, at) => Touch(c, KeyOf(name), at)
    case Store(name, entry, victim, at) => Evicted(c, at, victim)[KeyOf(name) := entry]
    case Cleanup(at) => Swept(c, at)
  }

  /** What the event's caller is told; nothing for stores and cleanups. */
  function Told(c: Cache, e: Event): Option<Answer> {
    if e.Cleanup? then None
    else
      var key := KeyOf(e.name);
      if !e.Store? && key in c && c[key].IsFresh(e.at) && (e.Check? || c[key].Found?) then Some(AnswerOf(c[key], e.at))
      else None
  }

  function Answers(c: Cache, events: seq<Event>): seq<Option<Answer>>
    decreases |events|
  {
    if events == [] then []
    else (if events[0].Cleanup? then [] else [Told(c, events[0])]) + Answers(Step(c, events[0]), events[1..])
  }

  /** Time does not go back, and every eviction takes an entry the cache may evict. */
  predicate Lawful(c: Cache, events: seq<Event>, from: Time)
    decreases |events|
  {
    events == [] ||
    (&& from <= events[0].at
     && (events[0].Store? ==> MayEvict(c, events[0].at, events[0].victim))
     && Lawful(Step(c, events[0]), events[1..], events[0].at))
  }

  function WithoutCleanups(events: seq<Event>): seq<Event> {
    if events == [] then [] else (if events[0].Cleanup? then [] else [events[0]]) + WithoutCleanups(events[1..])
  }

  /** Two caches with the same fresh entries. */
  ghost predicate Alike(c: Cache, d: Cache, now: Time) { Swept(c, now) == Swept(d, now) }

  lemma SweptTwice(c: Cache, earlier: Time, now: Time)
    requires earlier <= now
    ensures Swept(Swept(c, earlier), now) == Swept(c, now)
  {
    forall k | k in c && c[k].IsFresh(now) ensures c[k].IsFresh(earlier) {}
  }

  lemma AlikeLater(c: Cache, d: Cache, earlier: Time, now: Time)
    requires Alike(c, d, earlier) && earlier <= now
    ensures Alike(c, d, now)
  {
    SweptTwice(c, earlier, now);
    SweptTwice(d, earlier, now);
  }

  lemma AlikeEntry(c: Cache, d: Cache, now: Time, key: string)
    requires Alike(c, d, now)
    ensures (key in c && c[key].IsFresh(now)) <==> (key in d && d[key].IsFresh(now))
    ensures key in c && c[key].IsFresh(now) ==> c[key] == d[key]
  {
    assert key in Swept(c, now) <==> key in Swept(d, now);
    if key in Swept(c, now) { assert Swept(c, now)[key] == Swept(d, now)[key]; }
  }

  lemma TouchKeepsAlike(c: Cache, d: Cache, key: string, now: Time)
    requires Alike(c, d, now)
    ensures Alike(Touch(c, key, now), Touch(d, key, now), now)
  {
    AlikeEntry(c, d, now, key);
    SweptTouch(c, key, now);
    SweptTouch(d, key, now);
  }

  lemma SweptTouch(c: Cache, key: string, now: Time)
    ensures Swept(Touch(c, key, now), now) == Touch(Swept(c, now), key, now)
  {
  }

  lemma SweptPut(c: Cache, key: string, e: CachedEntry, now: Time)
    ensures Swept(c[key := e], now) == if e.IsFresh(now) then Swept(c, now)[key := e] else Swept(c, now) - {key}
  {
  }

  lemma SweptDrop(c: Cache, key: string, now: Time)
    ensures Swept(c - {key}, now) == Swept(c, now) - {key}
  {
  }

  /** Whether an entry is lost to eviction depends on the fresh entries alone. */
  lemma EvictionKeepsAlike(c: Cache, d: Cache, now: Time, victim: string)
    requires Alike(c, d, now) && MayEvict(c, now, victim)
    ensures MayEvict(d, now, victim) && Alike(Evicted(c, now, victim), Evicted(d, now, victim), now)
  {
    SubmapSize(Swept(c, now), c);
    SubmapSize(Swept(d, now), d);
    SweptTwice(c, now, now);
    SweptTwice(d, now, now);
    SweptDrop(Swept(c, now), victim, now);
  }

  lemma StepKeepsAlike(c: Cache, d: Cache, e: Event)
    requires Alike(c, d, e.at) && (e.Store? ==> MayEvict(c, e.at, e.victim))
    ensures Told(c, e) == Told(d, e) && Alike(Step(c, e), Step(d, e), e.at)
    ensures e.Store? ==> MayEvict(d, e.at, e.victim)
    ensures e.Cleanup? ==> Alike(Step(c, e), d, e.at)
  {
    match e
    case Check(name, at) => AlikeEntry(c, d, at, KeyOf(name)); TouchKeepsAlike(c, d, KeyOf(name), at);
    case Lookup(name, at) => AlikeEntry(c, d, at, KeyOf(name)); TouchKeepsAlike(c, d, KeyOf(name), at);
    case Store(name, entry, victim, at) =>
      EvictionKeepsAlike(c, d, at, victim);
      SweptPut(Evicted(c, at, victim), KeyOf(name), entry, at);
      SweptPut(Evicted(d, at, victim), KeyOf(name), entry, at);
    case Cleanup(at) => SweptTwice(c, at, at); SweptTwice(d, at, at);
  }

  lemma {:induction false} AlikeAnswers(c: Cache, d: Cache, events: seq<Event>, from: Time)
    requires Alike(c, d, from) && Lawful(c, events, from)
    ensures Answers(c, events) == Answers(d, WithoutCleanups(events)) && Lawful(d, WithoutCleanups(events), from)
    decreases |events|
  {
    if events != [] {
      var e, rest := events[0], events[1..];
      AlikeLater(c, d, from, e.at);
      StepKeepsAlike(c, d, e);
      if e.Cleanup? {
        AlikeAnswers(Step(c, e), d, rest, e.at);
        assert [] + WithoutCleanups(rest) == WithoutCleanups(rest) &&
          [] + Answers(Step(c, e), rest) == Answers(Step(c, e), rest);
        LawfulFrom(d, WithoutCleanups(rest), from, e.at);
      } else {
        AlikeAnswers(Step(c, e), Step(d, e), rest, e.at);
        assert ([e] + WithoutCleanups(rest))[1..] == WithoutCleanups(rest);
      }
    }
  }

  lemma LawfulFrom(c: Cache, events: seq<Event>, earlier: Time, from: Time)
    requires Lawful(c, events, from) && earlier <= from
    ensures Lawful(c, events, earlier)
  {
  }

  /** Cleanups may be interleaved anywhere: no answer of any run changes, and the evictions stay lawful. */
  lemma CleanupChangesNoAnswer(c: Cache, events: seq<Event>, from: Time)
    requires Lawful(c, events, from)
    ensures Answers(c, events) == Answers(c, WithoutCleanups(events)) && Lawful(c, WithoutCleanups(events), from)
  {
    AlikeAnswers(c, c, events, from);
  }

  // ----- A cached outcome answers until it expires or is evicted -----

  function After(c: Cache, events: seq<Event>): Cache
    decreases |events|
  {
    if events == [] then c else After(Step(c, events[0]), events[1..])
  }

  /** When the entry stops answering. */
  function Expiry(e: CachedEntry): Time {
    match e
    case Found(_, fetchedAt, _) => fetchedAt + TTL
    case NotFound(storedAt, _) => storedAt + NEG_TTL
    case RateLimited(until, _) => until
  }

  /** The event neither replaces the entry of the name nor evicts it. */
  predicate Spares(c: Cache, e: Event, key: string) {
    e.Store? ==> KeyOf(e.name) != key && (key in c ==> key in Evicted(c, e.at, e.victim))
  }

  predicate AllSpare(c: Cache, events: seq<Event>, key: string)
    decreases |events|
  {
    events == [] || (Spares(c, events[0], key) && AllSpare(Step(c, events[0]), events[1..], key))
  }

  /** The entry up to when it was last used. */
  ghost predicate SameOutcome(e: CachedEntry, e': CachedEntry) {
    match e
    case Found(uuid, fetchedAt, _) => e'.Found? && e'.uuid == uuid && e'.fetchedAt == fetchedAt
    case NotFound(storedAt, _) => e'.NotFound? && e'.storedAt == storedAt
    case RateLimited(until, _) => e'.RateLimited? && e'.until == until
  }

  lemma {:induction false} OutcomeStays(c: Cache, events: seq<Event>, key: string)
    requires key in c && AllSpare(c, events, key)
    requires forall i :: 0 <= i < |events| ==> events[i].at < Expiry(c[key])
    ensures key in After(c, events) && SameOutcome(c[key], After(c, events)[key])
    decreases |events|
  {
    if events != [] {
      var c' := Step(c, events[0]);
      assert key in c' && SameOutcome(c[key], c'[key]);
      assert forall i :: 0 <= i < |events[1..]| ==> events[1..][i] == events[i + 1];
      OutcomeStays(c', events[1..], key);
    }
  }

  lemma TellsOutcome(c: Cache, key: string, e: CachedEntry, again: Event)
    requires key in c && SameOutcome(e, c[key])
    requires !again.Store? && !again.Cleanup? && KeyOf(again.name) == key
    ensures Told(c, again) ==
      if again.at < Expiry(e) && (again.Check? || e.Found?) then Some(AnswerOf(e, again.at)) else None
  {
    assert c[key].IsFresh(again.at) <==> again.at < Expiry(e);
    assert AnswerOf(c[key], again.at) == AnswerOf(e, again.at);
  }

  /** A cached outcome answers every check of its name until it expires, unless it is replaced or evicted first; a uuid
      answers lookups as well. From its expiry on it answers nothing. */
  lemma OutcomeAnswers(c: Cache, key: string, events: seq<Event>, again: Event)
    requires key in c && AllSpare(c, events, key)
    requires forall i :: 0 <= i < |events| ==> events[i].at < Expiry(c[key])
    requires !again.Store? && !again.Cleanup? && KeyOf(again.name) == key
    ensures Told(After(c, events), again) ==
      if again.at < Expiry(c[key]) && (again.Check? || c[key].Found?) then Some(AnswerOf(c[key], again.at)) else None
  {
    OutcomeStays(c, events, key);
    TellsOutcome(After(c, events), key, c[key], again);
  }

  /** A uuid that was just used is not evicted while a negative, or a uuid used less recently, is left. */
  lemma UsedEntryOutlives(c: Cache, key: string, at: Time, now: Time, victim: string, other: string)
    requires key in c && c[key].Found? && at <= now && c[key].IsFresh(now)
    requires other in c && other != key && c[other].IsFresh(now) && (c[other].Found? ==> c[other].lastAccess < at)
    requires MayEvict(Touch(c, key, at), now, victim)
    ensures key in Evicted(Touch(c, key, at), now, victim)
  {
    var c' := Touch(c, key, at);
    assert c'[key].lastAccess == at && c'[other] == c[other];
    assert other in Swept(c', now) && key in Swept(c', now);
  }

  // ----- Casing never shows -----

  /** The same event, its name perhaps in another casing. */
  ghost predicate Recased(e: Event, e': Event) {
    match e
    case Check(name, at) => e'.Check? && e'.at == at && SameButCase(name, e'.name)
    case Lookup(name, at) => e'.Lookup? && e'.at == at && SameButCase(name, e'.name)
    case Store(name, _, _, _) => e'.Store? && e'.(name := name) == e && SameButCase(name, e'.name)
    case Cleanup(_) => e' == e
  }

  lemma RecasedStep(c: Cache, e: Event, e': Event)
    requires Recased(e, e')
    ensures Step(c, e) == Step(c, e') && Told(c, e) == Told(c, e')
  {
    if !e.Cleanup? { KeysAgreeIff(e.name, e'.name); }
  }

  /** However the names are cased, every call is told the same, and the evictions stay lawful. */
  lemma {:induction false} CasingChangesNoAnswer(c: Cache, events: seq<Event>, recased: seq<Event>, from: Time)
    requires |events| == |recased| && Lawful(c, events, from)
    requires forall i :: 0 <= i < |events| ==> Recased(events[i], recased[i])
    ensures Answers(c, events) == Answers(c, recased) && Lawful(c, recased, from)
    decreases |events|
  {
    if events != [] {
      RecasedStep(c, events[0], recased[0]);
      CasingChangesNoAnswer(Step(c, events[0]), events[1..], recased[1..], events[0].at);
    }
  }
}
