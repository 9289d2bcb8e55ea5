/** One resolve per name at a time: the protocol of leaders and followers (src/mojang.rs). */
module SingleFlight {
  import opened Basics
  import opened InFlight

  type TaskId = nat

  /** Where a call stands. `n` is the notify of the flight it leads or waits on. */
  datatype Pc =
    | Start                                    // about to look in the cache
    | Deciding                                 // missed the cache, about to take the in-flight lock
    | Joining(n: NotifyId)                     // a follower that let go of the lock, not yet registered
    | Registered(n: NotifyId, woken: bool)     // registered, about to look in the cache again
    | Parked(n: NotifyId, woken: bool, late: bool)  // awaiting; `late` when the broadcast had gone out before it parked
    | Woken(n: NotifyId)                       // woken, about to look in the cache again
    | Resolving(n: NotifyId)                   // a leader awaiting the resolver
    | Publishing(n: NotifyId, ttl: nat)        // a leader with an outcome to cache
    | Releasing(n: NotifyId)                   // a leader, or its drop guard, about to take its name off the map
    | Notifying(sent: set<NotifyId>)           // about to broadcast what it took off the map
    | DirectCall                               // a second-time follower calling the resolver itself
    | Done

  datatype Task = Task(key: Key, pc: Pc, reentered: bool, calls: nat, reentries: nat)

  /** What the steps have done so far; no step looks at it. */
  datatype History = History(
    leaders: map<Key, TaskId>,        // who put each name on the map
    keyOf: map<NotifyId, Key>,        // which name each notify was made for
    senders: map<NotifyId, TaskId>,   // who is about to broadcast a notify taken off the map
    broadcast: set<NotifyId>,         // notifies that have been broadcast
    cacheable: set<NotifyId>,         // flights whose leader got an outcome that is cached
    published: map<NotifyId, Time>,   // flights whose outcome was cached, and until when it is fresh
    latest: map<Key, NotifyId>,       // which flight's outcome the cache entry of a name is
    gone: set<NotifyId>)              // published outcomes that were evicted or overwritten since

  datatype State = State(
    now: Time,
    cache: map<Key, Time>,            // until when each cached outcome is fresh
    flights: Flights,
    nextNotify: NotifyId,
    tasks: map<TaskId, Task>,
    past: History)

  /** One step: a lock region, a resumption after an await, or something that happens to the program. */
  datatype Event =
    | Tick(ms: nat)
    | Call(t: TaskId, key: Key)
    | CheckCache(t: TaskId)
    | Decide(t: TaskId, victim: Key)
    | Register(t: TaskId)
    | Recheck(t: TaskId)
    | WakeUp(t: TaskId)
    | CheckAgain(t: TaskId)
    | ResolverReturns(t: TaskId, ttl: Option<nat>)  // None: a transport error, which leaves no entry
    | Publish(t: TaskId)
    | Release(t: TaskId)
    | Broadcast(t: TaskId)
    | DirectReturns(t: TaskId)
    | Cancel(t: TaskId)                // at an await: resolving, parked, or in the direct call
    | CacheEvict(key: Key)
    | Cleanup

  predicate Hit(s: State, key: Key) { key in s.cache && s.now < s.cache[key] }

  predicate Enabled(s: State, e: Event) {
    match e
    case Tick(_) => true
    case Call(t, _) => t !in s.tasks
    case CheckCache(t) => t in s.tasks && s.tasks[t].pc.Start?
    case Decide(t, victim) => t in s.tasks && s.tasks[t].pc.Deciding? && MayEvict(s.flights, s.now, victim)
    case Register(t) => t in s.tasks && s.tasks[t].pc.Joining?
    case Recheck(t) => t in s.tasks && s.tasks[t].pc.Registered?
    case WakeUp(t) => t in s.tasks && s.tasks[t].pc.Parked? && s.tasks[t].pc.woken
    case CheckAgain(t) => t in s.tasks && s.tasks[t].pc.Woken?
    case ResolverReturns(t, _) => t in s.tasks && s.tasks[t].pc.Resolving?
    case Publish(t) => t in s.tasks && s.tasks[t].pc.Publishing?
    case Release(t) => t in s.tasks && s.tasks[t].pc.Releasing?
    case Broadcast(t) => t in s.tasks && s.tasks[t].pc.Notifying?
    case DirectReturns(t) => t in s.tasks && s.tasks[t].pc.DirectCall?
    case Cancel(t) => t in s.tasks && (s.tasks[t].pc.Resolving? || s.tasks[t].pc.Parked? || s.tasks[t].pc.DirectCall?)
    case CacheEvict(_) => true
    case Cleanup => true
  }

  function WokenPc(pc: Pc, ns: set<NotifyId>): Pc {
    match pc
    case Registered(n, _) => if n in ns then Registered(n, true) else pc
    case Parked(n, _, late) => if n in ns then Parked(n, true, late) else pc
    case _ => pc
  }

  /** A broadcast wakes the waiters registered by now, and no others. */
  function Wake(s: State, ns: set<NotifyId>): State {
    s.(tasks := map t | t in s.tasks :: s.tasks[t].(pc := WokenPc(s.tasks[t].pc, ns)),
       past := s.past.(broadcast := s.past.broadcast + ns, senders := s.past.senders - ns))
  }

  function Put(s: State, t: TaskId, task: Task): State { s.(tasks := s.tasks[t := task]) }

  function Goto(s: State, t: TaskId, pc: Pc): State
    requires t in s.tasks
  {
    Put(s, t, s.tasks[t].(pc := pc))
  }

  /** Starts a flight and calls the resolver. */
  function Leading(s: State, t: TaskId): State
    requires t in s.tasks
  {
    var key, n := s.tasks[t].key, s.nextNotify;
    Put(s, t, s.tasks[t].(pc := Resolving(n), calls := s.tasks[t].calls + 1))
      .(flights := s.flights[key := Flight(n, s.now)], nextNotify := n + 1,
        past := s.past.(leaders := s.past.leaders[key := t], keyOf := s.past.keyOf[n := key]))
  }

  function Decided(s: State, t: TaskId, victim: Key): State
    requires t in s.tasks
  {
    var room := Evicted(s.flights, s.now, victim);
    var s' := Wake(s, Dropped(s.flights, room)).(flights := room);
    if s.tasks[t].key in room then Goto(s', t, Joining(room[s.tasks[t].key].notify)) else Leading(s', t)
  }

  function Released(s: State, t: TaskId): State
    requires t in s.tasks
  {
    var key := s.tasks[t].key;
    var s' := s.(flights := s.flights - {key}, past := s.past.(leaders := s.past.leaders - {key}));
    if key in s.flights then
      var n := s.flights[key].notify;
      Goto(s', t, Notifying({n})).(past := s'.past.(senders := s'.past.senders[n := t]))
    else Goto(s', t, Notifying({}))
  }

  /** The entry of a name is lost: its outcome is gone. */
  function WithoutEntry(h: History, key: Key): History {
    if key in h.latest then h.(latest := h.latest - {key}, gone := h.gone + {h.latest[key]}) else h
  }

  /** An outcome is cached over whatever the name's entry was. */
  function WithPublished(h: History, key: Key, n: NotifyId, until: Time): History {
    var h' := WithoutEntry(h, key);
    h'.(published := h.published[n := until], latest := h'.latest[key := n])
  }

  function Step(s: State, e: Event): State
    requires Enabled(s, e)
  {
    match e
    case Tick(ms) => s.(now := s.now + ms)
    case Call(t, key) => Put(s, t, Task(key, Start, false, 0, 0))
    case CheckCache(t) => Goto(s, t, if Hit(s, s.tasks[t].key) then Done else Deciding)
    case Decide(t, victim) => Decided(s, t, victim)
    case Register(t) => Goto(s, t, Registered(s.tasks[t].pc.n, false))
    case Recheck(t) =>
      var pc := s.tasks[t].pc;
      Goto(s, t, if Hit(s, s.tasks[t].key) then Done else Parked(pc.n, pc.woken, pc.n in s.past.broadcast))
    case WakeUp(t) => Goto(s, t, Woken(s.tasks[t].pc.n))
    case CheckAgain(t) =>
      var task := s.tasks[t];
      if Hit(s, task.key) then Goto(s, t, Done)
      else if !task.reentered then Put(s, t, task.(pc := Start, reentered := true, reentries := task.reentries + 1))
      else Put(s, t, task.(pc := DirectCall, calls := task.calls + 1))
    case ResolverReturns(t, ttl) =>
      var n := s.tasks[t].pc.n;
      if ttl.Some? then Goto(s, t, Publishing(n, ttl.value)).(past := s.past.(cacheable := s.past.cacheable + {n}))
      else Goto(s, t, Releasing(n))
    case Publish(t) =>
      var pc, until := s.tasks[t].pc, s.now + s.tasks[t].pc.ttl;
      Goto(s, t, Releasing(pc.n))
        .(cache := s.cache[s.tasks[t].key := until], past := WithPublished(s.past, s.tasks[t].key, pc.n, until))
    case Release(t) => Released(s, t)
    case Broadcast(t) => Wake(Goto(s, t, Done), s.tasks[t].pc.sent)
    case DirectReturns(t) => Goto(s, t, Done)
    case Cancel(t) => Goto(s, t, if s.tasks[t].pc.Resolving? then Releasing(s.tasks[t].pc.n) else Done)
    case CacheEvict(key) => s.(cache := s.cache - {key}, past := WithoutEntry(s.past, key))
    case Cleanup =>
      var current := Current(s.flights, s.now);
      Wake(s, Dropped(s.flights, current)).(flights := current)
  }

  const INITIAL := State(0, map[], map[], 0, map[], History(map[], map[], map[], {}, {}, map[], map[], {}))

  /** No leader is thirty seconds old, and there is room on the map. */
  predicate Calm(s: State) { |s.flights| < MAX_ENTRIES && forall k :: k in s.flights ==> !IsStale(s.flights[k], s.now) }

  ghost predicate Reaches(s: State, events: seq<Event>, s': State, calm: bool)
    decreases |events|
  {
    if events == [] then s == s'
    else Enabled(s, events[0]) && (calm ==> Calm(s)) && Reaches(Step(s, events[0]), events[1..], s', calm)
  }

  // ----- What every step keeps -----

  predicate Leads(pc: Pc) { pc.Resolving? || pc.Publishing? || pc.Releasing? }

  predicate Waits(pc: Pc) { (pc.Registered? || pc.Parked?) && !pc.woken }

  /** The notifies a call's place names. */
  function Named(pc: Pc): set<NotifyId> {
    if pc.Joining? || pc.Registered? || pc.Parked? || pc.Woken? || Leads(pc) then {pc.n}
    else if pc.Notifying? then pc.sent
    else {}
  }

  predicate OnMap(s: State, n: NotifyId) {
    n in s.past.keyOf && s.past.keyOf[n] in s.flights && s.flights[s.past.keyOf[n]].notify == n
  }

  /** The flight is on the map, or somebody is about to broadcast its notify. */
  predicate Live(s: State, n: NotifyId) { OnMap(s, n) || n in s.past.senders }

  /** A name is in flight exactly while one task leads it, and under that flight's own notify. */
  ghost predicate OneLeader(s: State) {
    && s.past.leaders.Keys == s.flights.Keys
    && (forall k :: k in s.past.leaders ==> Led(s, k))
    && (forall t :: t in s.tasks && Leads(s.tasks[t].pc) ==>
      s.tasks[t].key in s.past.leaders && s.past.leaders[s.tasks[t].key] == t)
  }

  predicate Led(s: State, k: Key)
    requires k in s.past.leaders
  {
    var t := s.past.leaders[k];
    t in s.tasks && Leads(s.tasks[t].pc) && s.tasks[t].key == k && k in s.flights &&
      s.tasks[t].pc.n == s.flights[k].notify
  }

  /** Notifies are handed out once; a flight's own has not been broadcast, nor is about to be. */
  ghost predicate OwnNotify(s: State) {
    && (forall k :: k in s.flights ==> OnMap(s, s.flights[k].notify) && s.past.keyOf[s.flights[k].notify] == k)
    && (forall k :: k in s.flights ==>
      s.flights[k].notify !in s.past.senders && s.flights[k].notify !in s.past.broadcast)
    && (forall n :: n in s.past.keyOf ==> n < s.nextNotify)
    && (forall t :: t in s.tasks ==> Named(s.tasks[t].pc) <= s.past.keyOf.Keys)
    && s.past.senders.Keys <= s.past.keyOf.Keys
    && s.past.broadcast <= s.past.keyOf.Keys && s.past.cacheable <= s.past.keyOf.Keys
  }

  /** Each notify taken off the map is about to be broadcast by one task. */
  ghost predicate Senders(s: State) {
    && (forall n :: n in s.past.senders ==> Sends(s, s.past.senders[n], n))
    && (forall t, n :: Sends(s, t, n) ==> n in s.past.senders && s.past.senders[n] == t)
  }

  predicate Sends(s: State, t: TaskId, n: NotifyId) {
    t in s.tasks && s.tasks[t].pc.Notifying? && n in s.tasks[t].pc.sent
  }

  /** A follower that is not woken waits on a live flight, unless the broadcast went out before it registered; and then
      it parks only after missing the cache once more. */
  predicate WillBeWoken(s: State, pc: Pc) {
    && (pc.Joining? || Waits(pc) ==> Live(s, pc.n) || pc.n in s.past.broadcast)
    && (pc.Parked? && !pc.woken && !pc.late ==> Live(s, pc.n))
  }

  ghost predicate NoLostWakeup(s: State) { forall t :: t in s.tasks ==> WillBeWoken(s, s.tasks[t].pc) }

  /** An outcome to be cached is cached while the flight is still on the map. */
  ghost predicate PublishedFirst(s: State) {
    forall n :: n in s.past.cacheable && n !in s.past.published ==> BeingPublished(s, n)
  }

  predicate BeingPublished(s: State, n: NotifyId) {
    && OnMap(s, n) && s.past.keyOf[n] in s.past.leaders
    && var t := s.past.leaders[s.past.keyOf[n]]; t in s.tasks && s.tasks[t].pc.Publishing? && s.tasks[t].pc.n == n
  }

  ghost predicate Protocol(s: State) {
    OneLeader(s) && OwnNotify(s) && Senders(s) && NoLostWakeup(s) && PublishedFirst(s)
  }

  // ----- Steps that move one task between places that neither lead nor broadcast -----

  ghost predicate Quiet(s: State, t: TaskId, task: Task) {
    && (t in s.tasks ==> !Leads(s.tasks[t].pc) && !s.tasks[t].pc.Notifying?)
    && !Leads(task.pc) && !task.pc.Notifying? && Named(task.pc) <= s.past.keyOf.Keys && WillBeWoken(s, task.pc)
  }

  lemma QuietKeepsLeaders(s: State, t: TaskId, task: Task)
    requires OneLeader(s) && Quiet(s, t, task)
    ensures OneLeader(Put(s, t, task))
  {
    forall k | k in s.past.leaders ensures Led(Put(s, t, task), k) { assert Led(s, k); }
  }

  lemma QuietKeepsNotify(s: State, t: TaskId, task: Task)
    requires OwnNotify(s) && Quiet(s, t, task)
    ensures OwnNotify(Put(s, t, task))
  {
    forall k | k in s.flights ensures OnMap(Put(s, t, task), s.flights[k].notify) {
      assert OnMap(s, s.flights[k].notify);
    }
  }

  lemma QuietKeepsSenders(s: State, t: TaskId, task: Task)
    requires Senders(s) && Quiet(s, t, task)
    ensures Senders(Put(s, t, task))
  {
    assert forall u, n :: Sends(Put(s, t, task), u, n) <==> Sends(s, u, n);
  }

  lemma QuietKeepsWaiters(s: State, t: TaskId, task: Task)
    requires NoLostWakeup(s) && Quiet(s, t, task)
    ensures NoLostWakeup(Put(s, t, task))
  {
    var s' := Put(s, t, task);
    forall u | u in s'.tasks ensures WillBeWoken(s', s'.tasks[u].pc) {
      if u != t { assert WillBeWoken(s, s.tasks[u].pc); }
    }
  }

  lemma QuietKeepsPublished(s: State, t: TaskId, task: Task)
    requires PublishedFirst(s) && Quiet(s, t, task)
    ensures PublishedFirst(Put(s, t, task))
  {
    var s' := Put(s, t, task);
    forall n | n in s'.past.cacheable && n !in s'.past.published ensures BeingPublished(s', n) {
      assert BeingPublished(s, n);
    }
  }

  lemma QuietKeepsProtocol(s: State, t: TaskId, task: Task)
    requires Protocol(s) && Quiet(s, t, task)
    ensures Protocol(Put(s, t, task))
  {
    QuietKeepsLeaders(s, t, task);
    QuietKeepsNotify(s, t, task);
    QuietKeepsSenders(s, t, task);
    QuietKeepsWaiters(s, t, task);
    QuietKeepsPublished(s, t, task);
  }

  // ----- The steps of a leader -----

  /** From one leading place to another of the same flight, with what is recorded of published outcomes left open. */
  ghost predicate LeadsOn(s: State, s': State, t: TaskId) {
    && t in s.tasks && t in s'.tasks && Leads(s.tasks[t].pc) && Leads(s'.tasks[t].pc)
    && s'.tasks[t].pc.n == s.tasks[t].pc.n
    && s'.tasks[t].key == s.tasks[t].key && s'.tasks == s.tasks[t := s'.tasks[t]]
    && s'.flights == s.flights && s'.nextNotify == s.nextNotify
    && s'.past.leaders == s.past.leaders && s'.past.keyOf == s.past.keyOf
    && s'.past.senders == s.past.senders && s'.past.broadcast == s.past.broadcast
    && s'.past.cacheable <= s.past.cacheable + {s.tasks[t].pc.n}
  }

  lemma LeadKeepsLeaders(s: State, s': State, t: TaskId)
    requires OneLeader(s) && LeadsOn(s, s', t)
    ensures OneLeader(s')
  {
    assert forall k :: k in s.past.leaders ==> Led(s, k);
  }

  lemma LeadKeepsNotify(s: State, s': State, t: TaskId)
    requires OwnNotify(s) && LeadsOn(s, s', t)
    ensures OwnNotify(s')
  {
    assert forall n :: OnMap(s', n) == OnMap(s, n);
    assert s.tasks[t].pc.n in Named(s.tasks[t].pc);
    forall u | u in s'.tasks ensures Named(s'.tasks[u].pc) <= s'.past.keyOf.Keys {
      assert Named(s'.tasks[u].pc) == Named(s.tasks[u].pc);
    }
  }

  lemma LeadKeepsWaiters(s: State, s': State, t: TaskId)
    requires Senders(s) && NoLostWakeup(s) && LeadsOn(s, s', t)
    ensures Senders(s') && NoLostWakeup(s')
  {
    assert forall u, n :: Sends(s', u, n) <==> Sends(s, u, n);
    assert forall n :: Live(s', n) == Live(s, n);
    forall u | u in s'.tasks ensures WillBeWoken(s', s'.tasks[u].pc) {
      if u != t { assert WillBeWoken(s, s.tasks[u].pc); }
    }
  }

  lemma LeadKeepsPublished(s: State, s': State, t: TaskId)
    requires OneLeader(s) && OwnNotify(s) && PublishedFirst(s) && LeadsOn(s, s', t)
    requires s.past.published.Keys <= s'.past.published.Keys
    requires s.tasks[t].pc.n in s'.past.cacheable && s.tasks[t].pc.n !in s'.past.published ==>
      s'.tasks[t].pc.Publishing?
    ensures PublishedFirst(s')
  {
    var k, n := s.tasks[t].key, s.tasks[t].pc.n;
    assert Led(s, k) && OnMap(s, n);
    forall m | m in s'.past.cacheable && m !in s'.past.published ensures BeingPublished(s', m) {
      if m != n { assert BeingPublished(s, m); }
    }
  }

  lemma LeadsOnKeepsProtocol(s: State, s': State, t: TaskId)
    requires Protocol(s) && LeadsOn(s, s', t)
    requires s.past.published.Keys <= s'.past.published.Keys
    requires s.tasks[t].pc.n in s'.past.cacheable && s.tasks[t].pc.n !in s'.past.published ==>
      s'.tasks[t].pc.Publishing?
    ensures Protocol(s')
  {
    LeadKeepsLeaders(s, s', t);
    LeadKeepsNotify(s, s', t);
    LeadKeepsWaiters(s, s', t);
    LeadKeepsPublished(s, s', t);
  }

  /** A leader still resolving has no cached outcome to come. */
  lemma ResolvingIsNotCacheable(s: State, t: TaskId)
    requires OneLeader(s) && OwnNotify(s) && PublishedFirst(s) && t in s.tasks && s.tasks[t].pc.Resolving?
    ensures s.tasks[t].pc.n in s.past.cacheable ==> s.tasks[t].pc.n in s.past.published
  {
    var n := s.tasks[t].pc.n;
    assert Led(s, s.tasks[t].key);
    assert OnMap(s, n) && s.past.keyOf[n] == s.tasks[t].key && s.past.leaders[s.past.keyOf[n]] == t;
    assert !BeingPublished(s, n);
  }

  lemma NewLeaderKeepsLeaders(s: State, t: TaskId)
    requires OneLeader(s) && t in s.tasks && s.tasks[t].pc.Deciding? && s.tasks[t].key !in s.flights
    ensures OneLeader(Leading(s, t))
  {
    var s', key := Leading(s, t), s.tasks[t].key;
    forall k | k in s'.past.leaders ensures Led(s', k) {
      if k != key { assert Led(s, k); }
    }
  }

  lemma NewLeaderKeepsNotify(s: State, t: TaskId)
    requires OwnNotify(s) && t in s.tasks && s.tasks[t].key !in s.flights
    ensures OwnNotify(Leading(s, t))
    ensures forall n :: Live(s, n) ==> Live(Leading(s, t), n)
    ensures s.nextNotify !in s.past.keyOf
  {
    var s' := Leading(s, t);
    forall u | u in s'.tasks ensures Named(s'.tasks[u].pc) <= s'.past.keyOf.Keys {
      if u != t { assert s'.tasks[u] == s.tasks[u]; }
    }
  }

  lemma NewLeaderKeepsSenders(s: State, t: TaskId)
    requires Senders(s) && t in s.tasks && s.tasks[t].pc.Deciding? && s.tasks[t].key !in s.flights
    ensures Senders(Leading(s, t))
  {
    assert forall u, n :: Sends(Leading(s, t), u, n) <==> Sends(s, u, n);
  }

  lemma NewLeaderKeepsWaiters(s: State, t: TaskId)
    requires NoLostWakeup(s) && OwnNotify(s) && t in s.tasks && s.tasks[t].key !in s.flights
    ensures NoLostWakeup(Leading(s, t))
  {
    var s' := Leading(s, t);
    NewLeaderKeepsNotify(s, t);
    forall u | u in s'.tasks ensures WillBeWoken(s', s'.tasks[u].pc) {
      if u != t { assert WillBeWoken(s, s.tasks[u].pc); }
    }
  }

  lemma NewLeaderKeepsProtocol(s: State, t: TaskId)
    requires Protocol(s) && t in s.tasks && s.tasks[t].pc.Deciding? && s.tasks[t].key !in s.flights
    ensures Protocol(Leading(s, t))
  {
    var s' := Leading(s, t);
    NewLeaderKeepsLeaders(s, t);
    NewLeaderKeepsNotify(s, t);
    NewLeaderKeepsSenders(s, t);
    NewLeaderKeepsWaiters(s, t);
    forall m | m in s'.past.cacheable && m !in s'.past.published ensures BeingPublished(s', m) {
      assert BeingPublished(s, m);
    }
  }

  lemma ReleaseKeepsLeaders(s: State, t: TaskId)
    requires OneLeader(s) && t in s.tasks && s.tasks[t].pc.Releasing?
    ensures s.tasks[t].key in s.flights && s.flights[s.tasks[t].key].notify == s.tasks[t].pc.n
    ensures OneLeader(Released(s, t))
  {
    var s', key := Released(s, t), s.tasks[t].key;
    assert Led(s, key);
    forall k | k in s'.past.leaders ensures Led(s', k) { assert Led(s, k); }
  }

  lemma ReleaseKeepsNotify(s: State, t: TaskId)
    requires OwnNotify(s) && t in s.tasks && s.tasks[t].key in s.flights
    requires s.tasks[t].pc == Releasing(s.flights[s.tasks[t].key].notify)
    ensures OwnNotify(Released(s, t))
    ensures forall n :: Live(s, n) ==> Live(Released(s, t), n)
  {
    var s', key := Released(s, t), s.tasks[t].key;
    forall k | k in s'.flights ensures OnMap(s', s'.flights[k].notify) && s'.flights[k].notify !in s'.past.senders {
      assert OnMap(s, s.flights[k].notify);
    }
    forall u | u in s'.tasks ensures Named(s'.tasks[u].pc) <= s'.past.keyOf.Keys {
      assert Named(s'.tasks[u].pc) == Named(s.tasks[u].pc);
    }
  }

  lemma ReleaseKeepsSenders(s: State, t: TaskId)
    requires Senders(s) && t in s.tasks && s.tasks[t].key in s.flights
    requires s.tasks[t].pc == Releasing(s.flights[s.tasks[t].key].notify)
    requires s.tasks[t].pc.n !in s.past.senders
    ensures Senders(Released(s, t))
  {
    var s', n := Released(s, t), s.tasks[t].pc.n;
    forall u, m | Sends(s', u, m) ensures m in s'.past.senders && s'.past.senders[m] == u {
      if u != t { assert Sends(s, u, m); }
    }
    forall m | m in s'.past.senders ensures Sends(s', s'.past.senders[m], m) {
      if m != n { assert Sends(s, s.past.senders[m], m); }
    }
  }

  lemma ReleaseKeepsProtocol(s: State, t: TaskId)
    requires Protocol(s) && t in s.tasks && s.tasks[t].pc.Releasing?
    ensures Protocol(Released(s, t))
  {
    var s' := Released(s, t);
    ReleaseKeepsLeaders(s, t);
    ReleaseKeepsNotify(s, t);
    ReleaseKeepsSenders(s, t);
    forall u | u in s'.tasks ensures WillBeWoken(s', s'.tasks[u].pc) {
      if u != t { assert WillBeWoken(s, s.tasks[u].pc); }
    }
    forall m | m in s'.past.cacheable && m !in s'.past.published ensures BeingPublished(s', m) {
      assert BeingPublished(s, m);
    }
  }

  // ----- The broadcast -----

  ghost predicate WokenBy(s: State, s': State, t: TaskId, ns: set<NotifyId>) {
    && s'.flights == s.flights && s'.nextNotify == s.nextNotify && s'.tasks.Keys == s.tasks.Keys
    && s'.past == s.past.(broadcast := s.past.broadcast + ns, senders := s.past.senders - ns)
    && t in s.tasks && s.tasks[t].pc == Notifying(ns) && s'.tasks[t].pc == Done
    && forall u :: u in s'.tasks ==>
      s'.tasks[u].key == s.tasks[u].key && (u != t ==> s'.tasks[u].pc == WokenPc(s.tasks[u].pc, ns))
  }

  lemma BroadcastKeepsLeaders(s: State, s': State, t: TaskId, ns: set<NotifyId>)
    requires OneLeader(s) && WokenBy(s, s', t, ns)
    ensures OneLeader(s')
  {
    forall k | k in s'.past.leaders ensures Led(s', k) { assert Led(s, k); }
  }

  lemma BroadcastKeepsNotify(s: State, s': State, t: TaskId, ns: set<NotifyId>)
    requires OwnNotify(s) && Senders(s) && WokenBy(s, s', t, ns)
    ensures OwnNotify(s')
  {
    forall n | n in ns ensures n in s.past.senders { assert Sends(s, t, n); }
    forall k | k in s'.flights ensures OnMap(s', s'.flights[k].notify) { assert OnMap(s, s.flights[k].notify); }
    forall u | u in s'.tasks ensures Named(s'.tasks[u].pc) <= s'.past.keyOf.Keys {
      assert Named(s'.tasks[u].pc) <= Named(s.tasks[u].pc);
    }
  }

  lemma BroadcastKeepsSenders(s: State, s': State, t: TaskId, ns: set<NotifyId>)
    requires Senders(s) && WokenBy(s, s', t, ns)
    ensures Senders(s')
  {
    forall u, m | Sends(s', u, m) ensures m in s'.past.senders && s'.past.senders[m] == u {
      assert Sends(s, u, m);
      assert m in ns ==> Sends(s, t, m);
    }
    forall m | m in s'.past.senders ensures Sends(s', s'.past.senders[m], m) {
      assert Sends(s, s.past.senders[m], m);
    }
  }

  lemma WokenPcWillBeWoken(s: State, s': State, t: TaskId, ns: set<NotifyId>, pc: Pc)
    requires WillBeWoken(s, pc) && WokenBy(s, s', t, ns)
    ensures WillBeWoken(s', WokenPc(pc, ns))
  {
  }

  lemma BroadcastKeepsWaiters(s: State, s': State, t: TaskId, ns: set<NotifyId>)
    requires NoLostWakeup(s) && WokenBy(s, s', t, ns)
    ensures NoLostWakeup(s')
  {
    forall u | u in s'.tasks ensures WillBeWoken(s', s'.tasks[u].pc) {
      assert WillBeWoken(s, s.tasks[u].pc);
      if u != t { WokenPcWillBeWoken(s, s', t, ns, s.tasks[u].pc); }
    }
  }

  lemma BroadcastKeepsPublished(s: State, s': State, t: TaskId, ns: set<NotifyId>)
    requires PublishedFirst(s) && WokenBy(s, s', t, ns)
    ensures PublishedFirst(s')
  {
    forall m | m in s'.past.cacheable && m !in s'.past.published ensures BeingPublished(s', m) {
      assert BeingPublished(s, m);
    }
  }

  lemma BroadcastKeepsProtocol(s: State, s': State, t: TaskId, ns: set<NotifyId>)
    requires Protocol(s) && WokenBy(s, s', t, ns)
    ensures Protocol(s')
  {
    BroadcastKeepsLeaders(s, s', t, ns);
    BroadcastKeepsNotify(s, s', t, ns);
    BroadcastKeepsSenders(s, s', t, ns);
    BroadcastKeepsWaiters(s, s', t, ns);
    BroadcastKeepsPublished(s, s', t, ns);
  }

  // ----- Every step of a calm run -----

  lemma WakeNone(s: State)
    ensures Wake(s, {}) == s
  {
    assert Wake(s, {}).tasks == s.tasks;
    assert s.past.senders - {} == s.past.senders;
  }

  /** In a calm state neither making room nor cleaning up drops a flight. */
  lemma CalmDropsNothing(s: State, victim: Key)
    requires Calm(s)
    ensures Evicted(s.flights, s.now, victim) == s.flights && Current(s.flights, s.now) == s.flights
    ensures Wake(s, Dropped(s.flights, s.flights)) == s
  {
    assert Dropped(s.flights, s.flights) == {};
    WakeNone(s);
  }

  lemma DecideKeepsProtocol(s: State, t: TaskId, victim: Key)
    requires Protocol(s) && Calm(s) && Enabled(s, Decide(t, victim))
    ensures Protocol(Step(s, Decide(t, victim)))
  {
    CalmDropsNothing(s, victim);
    var key := s.tasks[t].key;
    if key in s.flights {
      assert OnMap(s, s.flights[key].notify);
      QuietKeepsProtocol(s, t, s.tasks[t].(pc := Joining(s.flights[key].notify)));
    } else {
      NewLeaderKeepsProtocol(s, t);
    }
  }

  predicate IsFollowerStep(e: Event) { e.Register? || e.Recheck? || e.WakeUp? || e.CheckAgain? }

  /** The step puts one call of no leading or broadcasting place in another such place. */
  ghost predicate IsQuiet(s: State, t: TaskId, s': State) {
    t in s'.tasks && s' == Put(s, t, s'.tasks[t]) && Quiet(s, t, s'.tasks[t])
  }

  lemma RegisterIsQuiet(s: State, t: TaskId)
    requires OwnNotify(s) && NoLostWakeup(s) && Enabled(s, Register(t))
    ensures IsQuiet(s, t, Step(s, Register(t)))
  {
    assert WillBeWoken(s, s.tasks[t].pc) && Named(s.tasks[t].pc) <= s.past.keyOf.Keys;
  }

  lemma RecheckIsQuiet(s: State, t: TaskId)
    requires OwnNotify(s) && NoLostWakeup(s) && Enabled(s, Recheck(t))
    ensures IsQuiet(s, t, Step(s, Recheck(t)))
  {
    assert WillBeWoken(s, s.tasks[t].pc) && Named(s.tasks[t].pc) <= s.past.keyOf.Keys;
  }

  lemma WakeUpIsQuiet(s: State, t: TaskId)
    requires OwnNotify(s) && Enabled(s, WakeUp(t))
    ensures IsQuiet(s, t, Step(s, WakeUp(t)))
  {
    assert Named(s.tasks[t].pc) <= s.past.keyOf.Keys;
  }

  lemma CheckAgainIsQuiet(s: State, t: TaskId)
    requires Enabled(s, CheckAgain(t))
    ensures IsQuiet(s, t, Step(s, CheckAgain(t)))
  {
    assert Named(Step(s, CheckAgain(t)).tasks[t].pc) == {};
  }

  lemma FollowerIsQuiet(s: State, e: Event)
    requires OwnNotify(s) && NoLostWakeup(s) && Enabled(s, e) && IsFollowerStep(e)
    ensures IsQuiet(s, e.t, Step(s, e))
  {
    match e
    case Register(t) => RegisterIsQuiet(s, t);
    case Recheck(t) => RecheckIsQuiet(s, t);
    case WakeUp(t) => WakeUpIsQuiet(s, t);
    case CheckAgain(t) => CheckAgainIsQuiet(s, t);
  }

  lemma FollowerKeepsProtocol(s: State, e: Event)
    requires Protocol(s) && Enabled(s, e) && IsFollowerStep(e)
    ensures Protocol(Step(s, e))
  {
    FollowerIsQuiet(s, e);
    QuietKeepsProtocol(s, e.t, Step(s, e).tasks[e.t]);
  }

  predicate IsOutsideStep(s: State, e: Event)
    requires Enabled(s, e)
  {
    e.Call? || e.CheckCache? || e.DirectReturns? || (e.Cancel? && !s.tasks[e.t].pc.Resolving?)
  }

  lemma OutsideIsQuiet(s: State, e: Event)
    requires Enabled(s, e) && IsOutsideStep(s, e)
    ensures IsQuiet(s, e.t, Step(s, e))
  {
    assert Named(Step(s, e).tasks[e.t].pc) == {};
  }

  lemma OutsideKeepsProtocol(s: State, e: Event)
    requires Protocol(s) && Enabled(s, e) && IsOutsideStep(s, e)
    ensures Protocol(Step(s, e))
  {
    OutsideIsQuiet(s, e);
    QuietKeepsProtocol(s, e.t, Step(s, e).tasks[e.t]);
  }

  lemma ResolverReturnsLeadsOn(s: State, t: TaskId, ttl: Option<nat>)
    requires OneLeader(s) && Enabled(s, ResolverReturns(t, ttl))
    ensures LeadsOn(s, Step(s, ResolverReturns(t, ttl)), t)
  {
  }

  lemma PublishLeadsOn(s: State, t: TaskId)
    requires OneLeader(s) && Enabled(s, Publish(t))
    ensures LeadsOn(s, Step(s, Publish(t)), t)
    ensures s.tasks[t].pc.n in Step(s, Publish(t)).past.published
    ensures s.past.published.Keys <= Step(s, Publish(t)).past.published.Keys
  {
  }

  lemma CancelLeadsOn(s: State, t: TaskId)
    requires OneLeader(s) && Enabled(s, Cancel(t)) && s.tasks[t].pc.Resolving?
    ensures LeadsOn(s, Step(s, Cancel(t)), t) && Step(s, Cancel(t)).past == s.past
  {
  }

  predicate IsLeaderStep(s: State, e: Event)
    requires Enabled(s, e)
  {
    e.ResolverReturns? || e.Publish? || (e.Cancel? && s.tasks[e.t].pc.Resolving?)
  }

  lemma LeaderKeepsProtocol(s: State, e: Event)
    requires Protocol(s) && Enabled(s, e) && IsLeaderStep(s, e)
    ensures Protocol(Step(s, e))
  {
    if e.ResolverReturns? {
      ResolvingIsNotCacheable(s, e.t);
      ResolverReturnsLeadsOn(s, e.t, e.ttl);
    } else if e.Publish? {
      PublishLeadsOn(s, e.t);
    } else {
      ResolvingIsNotCacheable(s, e.t);
      CancelLeadsOn(s, e.t);
    }
    LeadsOnKeepsProtocol(s, Step(s, e), e.t);
  }

  lemma TimeKeepsProtocol(s: State, s': State)
    requires Protocol(s) && s' == s.(now := s'.now, cache := s'.cache, past := s'.past)
    requires s'.past == s.past.(latest := s'.past.latest, gone := s'.past.gone)
    ensures Protocol(s')
  {
    assert forall u, n :: Sends(s', u, n) <==> Sends(s, u, n);
    assert forall k :: k in s.past.leaders ==> Led(s, k);
    assert forall n :: Live(s', n) == Live(s, n);
  }

  lemma BroadcastStepKeepsProtocol(s: State, t: TaskId)
    requires Protocol(s) && Enabled(s, Broadcast(t))
    ensures Protocol(Step(s, Broadcast(t)))
  {
    assert WokenBy(s, Step(s, Broadcast(t)), t, s.tasks[t].pc.sent);
    BroadcastKeepsProtocol(s, Step(s, Broadcast(t)), t, s.tasks[t].pc.sent);
  }

  lemma SharedKeepsProtocol(s: State, e: Event)
    requires Protocol(s) && Calm(s) && Enabled(s, e)
    requires !IsFollowerStep(e) && !IsOutsideStep(s, e) && !IsLeaderStep(s, e)
    ensures Protocol(Step(s, e))
  {
    if e.Tick? || e.CacheEvict? {
      TimeKeepsProtocol(s, Step(s, e));
    } else if e.Cleanup? {
      CalmDropsNothing(s, "");
    } else if e.Decide? {
      DecideKeepsProtocol(s, e.t, e.victim);
    } else if e.Release? {
      ReleaseKeepsProtocol(s, e.t);
    } else {
      BroadcastStepKeepsProtocol(s, e.t);
    }
  }

  /** Every step of a calm run keeps the protocol. */
  lemma StepKeepsProtocol(s: State, e: Event)
    requires Protocol(s) && Calm(s) && Enabled(s, e)
    ensures Protocol(Step(s, e))
  {
    if IsFollowerStep(e) {
      FollowerKeepsProtocol(s, e);
    } else if IsOutsideStep(s, e) {
      OutsideKeepsProtocol(s, e);
    } else if IsLeaderStep(s, e) {
      LeaderKeepsProtocol(s, e);
    } else {
      SharedKeepsProtocol(s, e);
    }
  }

  // ----- The cache holds what was published -----

  /** The cached entry of a name is the outcome that was published for it last, and that one is not gone. */
  predicate EntryIsTrue(s: State, k: Key)
    requires k in s.past.latest
  {
    var n := s.past.latest[k];
    && n in s.past.published && n in s.past.keyOf && s.past.keyOf[n] == k && n !in s.past.gone
    && k in s.cache && s.cache[k] == s.past.published[n]
  }

  /** A published outcome is gone or is the entry of its flight's name. */
  predicate IsKept(s: State, n: NotifyId) {
    && n in s.past.keyOf
    && (n in s.past.gone || (s.past.keyOf[n] in s.past.latest && s.past.latest[s.past.keyOf[n]] == n))
  }

  ghost predicate CacheIsTrue(s: State) {
    && (forall k :: k in s.past.latest ==> EntryIsTrue(s, k))
    && (forall n :: n in s.past.published ==> IsKept(s, n))
    && s.past.gone <= s.past.published.Keys
  }

  /** The flight's outcome was not one to cache, or has been evicted, overwritten or outlived. */
  predicate IsLost(s: State, n: NotifyId) {
    n in s.past.cacheable ==> n in s.past.published && (n in s.past.gone || s.now >= s.past.published[n])
  }

  predicate HasFlight(pc: Pc) { pc.Joining? || pc.Registered? || pc.Parked? || pc.Woken? || Leads(pc) }

  predicate HasBeenWoken(pc: Pc) { pc.Woken? || ((pc.Registered? || pc.Parked?) && pc.woken) }

  /** A call leads or follows a flight of its own name; who was woken was woken by a broadcast; an unpublished outcome
      is its leader's; and who parked after the broadcast had missed an outcome that was lost. */
  predicate PlaceIsTrue(s: State, task: Task) {
    var pc := task.pc;
    && (HasFlight(pc) ==> pc.n in s.past.keyOf && s.past.keyOf[pc.n] == task.key)
    && (HasBeenWoken(pc) ==> pc.n in s.past.broadcast)
    && (pc.Resolving? || pc.Publishing? ==> pc.n !in s.past.published)
    && (pc.Parked? && pc.late ==> pc.n in s.past.broadcast && IsLost(s, pc.n))
  }

  ghost predicate Truth(s: State) { CacheIsTrue(s) && forall t :: t in s.tasks ==> PlaceIsTrue(s, s.tasks[t]) }

  ghost predicate Inv(s: State) { Protocol(s) && Truth(s) }

  lemma PutKeepsTruth(s: State, t: TaskId, task: Task)
    requires Truth(s) && PlaceIsTrue(s, task)
    ensures Truth(Put(s, t, task))
  {
    var s' := Put(s, t, task);
    forall k | k in s'.past.latest ensures EntryIsTrue(s', k) { assert EntryIsTrue(s, k); }
    forall n | n in s'.past.published ensures IsKept(s', n) { assert IsKept(s, n); }
    forall u | u in s'.tasks ensures PlaceIsTrue(s', s'.tasks[u]) {
      if u != t { assert PlaceIsTrue(s, s.tasks[u]); } else { assert PlaceIsTrue(s, task); }
    }
  }

  /** What the truth of a state rests on, besides its calls. */
  predicate SameRecord(s: State, s': State) {
    && s'.now == s.now && s'.cache == s.cache && s'.past.keyOf == s.past.keyOf
    && s'.past.cacheable == s.past.cacheable && s'.past.published == s.past.published
    && s'.past.latest == s.past.latest && s'.past.gone == s.past.gone && s.past.broadcast <= s'.past.broadcast
  }

  lemma RecordKeepsTruth(s: State, s': State)
    requires CacheIsTrue(s) && SameRecord(s, s')
    requires forall t :: t in s'.tasks ==> PlaceIsTrue(s', s'.tasks[t])
    ensures Truth(s')
  {
    forall k | k in s'.past.latest ensures EntryIsTrue(s', k) { assert EntryIsTrue(s, k); }
    forall n | n in s'.past.published ensures IsKept(s', n) { assert IsKept(s, n); }
  }

  /** An outcome that was published, and is neither gone nor outlived, is a hit for its flight's name. */
  lemma UnlessLostItHits(s: State, n: NotifyId)
    requires CacheIsTrue(s) && n in s.past.published && n !in s.past.gone && s.now < s.past.published[n]
    ensures n in s.past.keyOf && Hit(s, s.past.keyOf[n])
  {
    assert IsKept(s, n);
    assert EntryIsTrue(s, s.past.keyOf[n]);
  }

  lemma PublishedWhenOffTheMap(s: State, n: NotifyId)
    requires Protocol(s) && n in s.past.cacheable && (n in s.past.broadcast || n in s.past.senders)
    ensures n in s.past.published
  {
    assert !OnMap(s, n);
    assert !BeingPublished(s, n);
  }

  /** A call whose flight has been broadcast misses the cache only when the outcome is lost. */
  lemma MissMeansLost(s: State, task: Task)
    requires Inv(s) && HasFlight(task.pc) && task.pc.n in s.past.broadcast && PlaceIsTrue(s, task) && !Hit(s, task.key)
    ensures IsLost(s, task.pc.n)
  {
    var n := task.pc.n;
    if n in s.past.cacheable { PublishedWhenOffTheMap(s, n); }
    if n in s.past.published && n !in s.past.gone && s.now < s.past.published[n] { UnlessLostItHits(s, n); }
  }

  lemma RecheckPlaceIsTrue(s: State, t: TaskId)
    requires Inv(s) && Enabled(s, Recheck(t))
    ensures PlaceIsTrue(s, Step(s, Recheck(t)).tasks[t])
  {
    var task := s.tasks[t];
    assert PlaceIsTrue(s, task);
    if !Hit(s, task.key) && task.pc.n in s.past.broadcast { MissMeansLost(s, task); }
  }

  lemma OtherPlaceIsTrue(s: State, e: Event)
    requires Enabled(s, e) && (e.Register? || e.WakeUp? || e.CheckAgain?) && PlaceIsTrue(s, s.tasks[e.t])
    ensures e.t in Step(s, e).tasks && PlaceIsTrue(s, Step(s, e).tasks[e.t])
  {
  }

  lemma FollowerPlaceIsTrue(s: State, e: Event)
    requires Inv(s) && Enabled(s, e) && IsFollowerStep(e)
    ensures e.t in Step(s, e).tasks && PlaceIsTrue(s, Step(s, e).tasks[e.t])
  {
    assert PlaceIsTrue(s, s.tasks[e.t]);
    if e.Recheck? {
      RecheckPlaceIsTrue(s, e.t);
    } else {
      OtherPlaceIsTrue(s, e);
    }
  }

  lemma FollowerKeepsTruth(s: State, e: Event)
    requires Inv(s) && Enabled(s, e) && IsFollowerStep(e)
    ensures Truth(Step(s, e))
  {
    FollowerPlaceIsTrue(s, e);
    FollowerIsQuiet(s, e);
    PutKeepsTruth(s, e.t, Step(s, e).tasks[e.t]);
  }

  lemma OutsideKeepsTruth(s: State, e: Event)
    requires Truth(s) && Enabled(s, e) && IsOutsideStep(s, e)
    ensures Truth(Step(s, e))
  {
    var s' := Step(s, e);
    assert PlaceIsTrue(s, s'.tasks[e.t]);
    PutKeepsTruth(s, e.t, s'.tasks[e.t]);
    assert s' == Put(s, e.t, s'.tasks[e.t]);
  }

  lemma CancelLeaderKeepsTruth(s: State, t: TaskId)
    requires Truth(s) && Enabled(s, Cancel(t)) && s.tasks[t].pc.Resolving?
    ensures Truth(Step(s, Cancel(t)))
  {
    assert PlaceIsTrue(s, s.tasks[t]);
    PutKeepsTruth(s, t, Step(s, Cancel(t)).tasks[t]);
  }

  lemma LeaderIsUnbroadcast(s: State, t: TaskId)
    requires Protocol(s) && t in s.tasks && Leads(s.tasks[t].pc)
    ensures s.tasks[t].pc.n !in s.past.broadcast
  {
    assert Led(s, s.tasks[t].key);
  }

  lemma ResolverReturnsKeepsEntries(s: State, t: TaskId, ttl: Option<nat>)
    requires CacheIsTrue(s) && Enabled(s, ResolverReturns(t, ttl))
    ensures CacheIsTrue(Step(s, ResolverReturns(t, ttl)))
  {
    var s' := Step(s, ResolverReturns(t, ttl));
    forall k | k in s'.past.latest ensures EntryIsTrue(s', k) { assert EntryIsTrue(s, k); }
    forall n | n in s'.past.published ensures IsKept(s', n) { assert IsKept(s, n); }
  }

  lemma ResolverReturnsKeepsPlace(s: State, t: TaskId, ttl: Option<nat>, task: Task)
    requires Enabled(s, ResolverReturns(t, ttl)) && s.tasks[t].pc.n !in s.past.broadcast && PlaceIsTrue(s, task)
    ensures PlaceIsTrue(Step(s, ResolverReturns(t, ttl)), task)
  {
  }

  lemma ResolverReturnsKeepsOwnPlace(s: State, t: TaskId, ttl: Option<nat>)
    requires Enabled(s, ResolverReturns(t, ttl)) && PlaceIsTrue(s, s.tasks[t])
    ensures PlaceIsTrue(Step(s, ResolverReturns(t, ttl)), Step(s, ResolverReturns(t, ttl)).tasks[t])
  {
  }

  lemma ResolverReturnsKeepsTruth(s: State, t: TaskId, ttl: Option<nat>)
    requires Inv(s) && Enabled(s, ResolverReturns(t, ttl))
    ensures Truth(Step(s, ResolverReturns(t, ttl)))
  {
    var s' := Step(s, ResolverReturns(t, ttl));
    ResolverReturnsKeepsEntries(s, t, ttl);
    LeaderIsUnbroadcast(s, t);
    forall u | u in s'.tasks ensures PlaceIsTrue(s', s'.tasks[u]) {
      if u == t { ResolverReturnsKeepsOwnPlace(s, t, ttl); } else { ResolverReturnsKeepsPlace(s, t, ttl, s.tasks[u]); }
    }
  }

  /** No other call has its own outcome unpublished under the same notify. */
  lemma LeadersDiffer(s: State, t: TaskId, u: TaskId)
    requires Inv(s) && t in s.tasks && u in s.tasks && t != u && Leads(s.tasks[t].pc) && Leads(s.tasks[u].pc)
    ensures s.tasks[t].pc.n != s.tasks[u].pc.n
  {
    assert PlaceIsTrue(s, s.tasks[t]) && PlaceIsTrue(s, s.tasks[u]);
    assert s.tasks[t].key != s.tasks[u].key;
  }

  lemma PublishKeepsEntries(s: State, t: TaskId)
    requires Inv(s) && Enabled(s, Publish(t))
    ensures CacheIsTrue(Step(s, Publish(t)))
  {
    var s', key, n := Step(s, Publish(t)), s.tasks[t].key, s.tasks[t].pc.n;
    assert PlaceIsTrue(s, s.tasks[t]);
    assert n !in s.past.gone;
    forall k | k in s'.past.latest ensures EntryIsTrue(s', k) {
      if k != key {
        assert EntryIsTrue(s, k);
        assert key in s.past.latest ==> EntryIsTrue(s, key);
      }
    }
    forall m | m in s'.past.published ensures IsKept(s', m) {
      if m != n { assert IsKept(s, m); }
    }
    assert key in s.past.latest ==> EntryIsTrue(s, key);
  }

  lemma PublishKeepsPlace(s: State, t: TaskId, u: TaskId)
    requires Inv(s) && Enabled(s, Publish(t)) && u in s.tasks
    ensures PlaceIsTrue(Step(s, Publish(t)), Step(s, Publish(t)).tasks[u])
  {
    LeaderIsUnbroadcast(s, t);
    assert PlaceIsTrue(s, s.tasks[u]);
    if u != t && Leads(s.tasks[u].pc) { LeadersDiffer(s, t, u); }
  }

  lemma PublishKeepsTruth(s: State, t: TaskId)
    requires Inv(s) && Enabled(s, Publish(t))
    ensures Truth(Step(s, Publish(t)))
  {
    var s' := Step(s, Publish(t));
    PublishKeepsEntries(s, t);
    forall u | u in s'.tasks ensures PlaceIsTrue(s', s'.tasks[u]) { PublishKeepsPlace(s, t, u); }
  }

  lemma CacheEvictKeepsTruth(s: State, key: Key)
    requires Truth(s)
    ensures Truth(Step(s, CacheEvict(key)))
  {
    var s' := Step(s, CacheEvict(key));
    assert key in s.past.latest ==> EntryIsTrue(s, key);
    forall k | k in s'.past.latest ensures EntryIsTrue(s', k) { assert EntryIsTrue(s, k); }
    forall n | n in s'.past.published ensures IsKept(s', n) { assert IsKept(s, n); }
    forall u | u in s'.tasks ensures PlaceIsTrue(s', s'.tasks[u]) { assert PlaceIsTrue(s, s.tasks[u]); }
  }

  lemma TickKeepsTruth(s: State, ms: nat)
    requires Truth(s)
    ensures Truth(Step(s, Tick(ms)))
  {
    var s' := Step(s, Tick(ms));
    forall k | k in s'.past.latest ensures EntryIsTrue(s', k) { assert EntryIsTrue(s, k); }
    forall n | n in s'.past.published ensures IsKept(s', n) { assert IsKept(s, n); }
    forall u | u in s'.tasks ensures PlaceIsTrue(s', s'.tasks[u]) { assert PlaceIsTrue(s, s.tasks[u]); }
  }

  lemma NewLeaderKeepsTruth(s: State, t: TaskId)
    requires Inv(s) && t in s.tasks && s.tasks[t].pc.Deciding? && s.tasks[t].key !in s.flights
    ensures Truth(Leading(s, t))
  {
    var s', n := Leading(s, t), s.nextNotify;
    assert n !in s.past.keyOf;
    assert n !in s.past.published by { assert n in s.past.published ==> IsKept(s, n); }
    forall k | k in s'.past.latest ensures EntryIsTrue(s', k) { assert EntryIsTrue(s, k); }
    forall m | m in s'.past.published ensures IsKept(s', m) { assert IsKept(s, m); }
    forall u | u in s'.tasks ensures PlaceIsTrue(s', s'.tasks[u]) {
      if u != t { assert PlaceIsTrue(s, s.tasks[u]); }
    }
  }

  lemma DecideKeepsTruth(s: State, t: TaskId, victim: Key)
    requires Inv(s) && Calm(s) && Enabled(s, Decide(t, victim))
    ensures Truth(Step(s, Decide(t, victim)))
  {
    CalmDropsNothing(s, victim);
    var key := s.tasks[t].key;
    if key in s.flights {
      PutKeepsTruth(s, t, s.tasks[t].(pc := Joining(s.flights[key].notify)));
    } else {
      NewLeaderKeepsTruth(s, t);
    }
  }

  lemma ReleaseKeepsTruth(s: State, t: TaskId)
    requires Truth(s) && Enabled(s, Release(t))
    ensures Truth(Step(s, Release(t)))
  {
    var s' := Step(s, Release(t));
    forall u | u in s'.tasks ensures PlaceIsTrue(s', s'.tasks[u]) { assert PlaceIsTrue(s, s.tasks[u]); }
    RecordKeepsTruth(s, s');
  }

  lemma BroadcastKeepsTruth(s: State, t: TaskId)
    requires Truth(s) && Enabled(s, Broadcast(t))
    ensures Truth(Step(s, Broadcast(t)))
  {
    var s' := Step(s, Broadcast(t));
    forall u | u in s'.tasks ensures PlaceIsTrue(s', s'.tasks[u]) { assert PlaceIsTrue(s, s.tasks[u]); }
    RecordKeepsTruth(s, s');
  }

  lemma StepKeepsTruth(s: State, e: Event)
    requires Inv(s) && Calm(s) && Enabled(s, e) && !IsFollowerStep(e) && !IsOutsideStep(s, e)
    ensures Truth(Step(s, e))
  {
    match e
    case Tick(ms) => TickKeepsTruth(s, ms);
    case CacheEvict(key) => CacheEvictKeepsTruth(s, key);
    case Cleanup => CalmDropsNothing(s, "");
    case Decide(t, victim) => DecideKeepsTruth(s, t, victim);
    case Release(t) => ReleaseKeepsTruth(s, t);
    case Broadcast(t) => BroadcastKeepsTruth(s, t);
    case ResolverReturns(t, ttl) => ResolverReturnsKeepsTruth(s, t, ttl);
    case Publish(t) => PublishKeepsTruth(s, t);
    case Cancel(t) => CancelLeaderKeepsTruth(s, t);
  }

  /** Every step of a calm run keeps the protocol and the truth of the cache. */
  lemma StepKeepsInv(s: State, e: Event)
    requires Inv(s) && Calm(s) && Enabled(s, e)
    ensures Inv(Step(s, e))
  {
    StepKeepsProtocol(s, e);
    if IsFollowerStep(e) {
      FollowerKeepsTruth(s, e);
    } else if IsOutsideStep(s, e) {
      OutsideKeepsTruth(s, e);
    } else {
      StepKeepsTruth(s, e);
    }
  }

  lemma {:induction false} CalmRunsKeepInv(s: State, events: seq<Event>, s': State)
    requires Inv(s) && Reaches(s, events, s', true)
    ensures Inv(s')
    decreases |events|
  {
    if events != [] {
      StepKeepsInv(s, events[0]);
      CalmRunsKeepInv(Step(s, events[0]), events[1..], s');
    }
  }

  // ----- Single flight -----

  lemma InitialInv()
    ensures Inv(INITIAL)
  {
    assert forall t, n :: !Sends(INITIAL, t, n);
  }

  predicate LeadsFor(s: State, t: TaskId, k: Key) { t in s.tasks && Leads(s.tasks[t].pc) && s.tasks[t].key == k }

  /** Throughout every calm run, whatever is interleaved or cancelled: a name has at most one live leader, and is on the
      map exactly while it has one. */
  lemma OneLeaderPerName(events: seq<Event>, s: State, k: Key)
    requires Reaches(INITIAL, events, s, true)
    ensures forall t, u :: LeadsFor(s, t, k) && LeadsFor(s, u, k) ==> t == u
    ensures k in s.flights <==> exists t :: LeadsFor(s, t, k)
  {
    InitialInv();
    CalmRunsKeepInv(INITIAL, events, s);
    if k in s.flights { assert Led(s, k) && LeadsFor(s, s.past.leaders[k], k); }
  }

  /** A leader takes its own flight off the map, whatever other calls did meanwhile, and is then the one to broadcast
      it. */
  lemma ReleaseTakesOwnFlight(events: seq<Event>, s: State, t: TaskId)
    requires Reaches(INITIAL, events, s, true) && Enabled(s, Release(t))
    ensures
      var key, n, s' := s.tasks[t].key, s.tasks[t].pc.n, Step(s, Release(t));
      && key in s.flights && s.flights[key].notify == n && n !in s.past.broadcast
      && s'.flights == s.flights - {key} && s'.tasks[t].pc == Notifying({n})
  {
    InitialInv();
    CalmRunsKeepInv(INITIAL, events, s);
    ReleaseKeepsLeaders(s, t);
  }

  /** An outcome that is to be cached is in the cache under its name before its flight leaves the map and before its
      waiters are woken, and stays there as it was published until it is evicted or overwritten. */
  lemma PublishedBeforeBroadcast(events: seq<Event>, s: State, n: NotifyId)
    requires Reaches(INITIAL, events, s, true)
    requires n in s.past.cacheable && (n in s.past.broadcast || n in s.past.senders)
    ensures n in s.past.published && n in s.past.keyOf
    ensures n in s.past.gone || (s.past.keyOf[n] in s.cache && s.cache[s.past.keyOf[n]] == s.past.published[n])
  {
    InitialInv();
    CalmRunsKeepInv(INITIAL, events, s);
    PublishedWhenOffTheMap(s, n);
    assert IsKept(s, n);
    assert n !in s.past.gone ==> EntryIsTrue(s, s.past.keyOf[n]);
  }

  // ----- No lost wakeup -----

  /** A call follows a flight of its own name. */
  lemma FollowsOwnName(events: seq<Event>, s: State, t: TaskId)
    requires Reaches(INITIAL, events, s, true) && t in s.tasks && HasFlight(s.tasks[t].pc)
    ensures s.tasks[t].pc.n in s.past.keyOf && s.past.keyOf[s.tasks[t].pc.n] == s.tasks[t].key
  {
    InitialInv();
    CalmRunsKeepInv(INITIAL, events, s);
    assert PlaceIsTrue(s, s.tasks[t]);
  }

  /** A follower that looks again after the broadcast is answered unless the outcome was not one to cache, or has been
      evicted, overwritten or outlived. */
  lemma LateFollowerIsAnswered(events: seq<Event>, s: State, t: TaskId)
    requires Reaches(INITIAL, events, s, true) && Enabled(s, Recheck(t)) && s.tasks[t].pc.n in s.past.broadcast
    ensures Step(s, Recheck(t)).tasks[t].pc == Done || IsLost(s, s.tasks[t].pc.n)
  {
    InitialInv();
    CalmRunsKeepInv(INITIAL, events, s);
    assert PlaceIsTrue(s, s.tasks[t]);
    if !Hit(s, s.tasks[t].key) { MissMeansLost(s, s.tasks[t]); }
  }

  /** And so is a follower that was woken. */
  lemma WokenFollowerIsAnswered(events: seq<Event>, s: State, t: TaskId)
    requires Reaches(INITIAL, events, s, true) && Enabled(s, CheckAgain(t))
    ensures Step(s, CheckAgain(t)).tasks[t].pc == Done || IsLost(s, s.tasks[t].pc.n)
  {
    InitialInv();
    CalmRunsKeepInv(INITIAL, events, s);
    assert PlaceIsTrue(s, s.tasks[t]);
    if !Hit(s, s.tasks[t].key) { MissMeansLost(s, s.tasks[t]); }
  }

  /** A parked follower that is not woken has a live flight to wake it, unless it parked after the broadcast of an
      outcome that is lost. */
  lemma ParkedFollowerHasALiveFlight(events: seq<Event>, s: State, t: TaskId)
    requires Reaches(INITIAL, events, s, true) && t in s.tasks && s.tasks[t].pc.Parked? && !s.tasks[t].pc.woken
    ensures Live(s, s.tasks[t].pc.n) || (s.tasks[t].pc.late && IsLost(s, s.tasks[t].pc.n))
  {
    InitialInv();
    CalmRunsKeepInv(INITIAL, events, s);
    assert WillBeWoken(s, s.tasks[t].pc) && PlaceIsTrue(s, s.tasks[t]);
  }

  predicate IsParked(s: State, t: TaskId, n: NotifyId, woken: bool) {
    t in s.tasks && s.tasks[t].pc.Parked? && s.tasks[t].pc.n == n && s.tasks[t].pc.woken == woken
  }

  lemma BroadcastWakes(s: State, u: TaskId, n: NotifyId, t: TaskId)
    requires Sends(s, u, n) && IsParked(s, t, n, false)
    ensures Enabled(s, Broadcast(u)) && IsParked(Step(s, Broadcast(u)), t, n, true)
  {
  }

  lemma ReleaseSends(s: State, u: TaskId, n: NotifyId, t: TaskId)
    requires u in s.tasks && s.tasks[u].pc.Releasing? && s.tasks[u].key in s.flights
    requires s.flights[s.tasks[u].key].notify == n && IsParked(s, t, n, false)
    ensures Enabled(s, Release(u)) && Sends(Step(s, Release(u)), u, n) && IsParked(Step(s, Release(u)), t, n, false)
  {
  }

  lemma PublishGoesOn(s: State, u: TaskId, n: NotifyId, t: TaskId)
    requires u in s.tasks && s.tasks[u].pc.Publishing? && s.tasks[u].key in s.flights
    requires s.flights[s.tasks[u].key].notify == n && IsParked(s, t, n, false)
    ensures Enabled(s, Publish(u))
    ensures
      var s' := Step(s, Publish(u));
      && s'.tasks[u].pc.Releasing? && s'.tasks[u].key == s.tasks[u].key && s'.flights == s.flights
      && IsParked(s', t, n, false)
  {
  }

  /** The next step of a leader that is past its await, or of its drop guard. */
  function NextOf(s: State, u: TaskId): Event
    requires u in s.tasks && (s.tasks[u].pc.Publishing? || s.tasks[u].pc.Releasing? || s.tasks[u].pc.Notifying?)
  {
    if s.tasks[u].pc.Publishing? then Publish(u) else if s.tasks[u].pc.Releasing? then Release(u) else Broadcast(u)
  }

  /** Whose steps wake the followers of a live flight. */
  function WakerOf(s: State, n: NotifyId): TaskId
    requires Live(s, n) && s.past.leaders.Keys == s.flights.Keys
  {
    if OnMap(s, n) then s.past.leaders[s.past.keyOf[n]] else s.past.senders[n]
  }

  /** Once the resolver has returned or was cancelled, at most three steps of the leader wake every follower of its
      flight. */
  lemma LeaderWakesFollowers(s: State, t: TaskId, n: NotifyId) returns (u: TaskId)
    requires Protocol(s) && IsParked(s, t, n, false) && Live(s, n)
    ensures u == WakerOf(s, n) && u in s.tasks
    ensures s.tasks[u].pc.Resolving? || Wakes(s, u, t, n, 3)
  {
    if OnMap(s, n) {
      var key := s.past.keyOf[n];
      assert Led(s, key);
      u := s.past.leaders[key];
      if s.tasks[u].pc.Publishing? {
        PublishGoesOn(s, u, n, t);
        var s1 := Step(s, Publish(u));
        ReleaseSends(s1, u, n, t);
        BroadcastWakes(Step(s1, Release(u)), u, n, t);
        assert Wakes(Step(s1, Release(u)), u, t, n, 1) && Wakes(s1, u, t, n, 2);
      } else if s.tasks[u].pc.Releasing? {
        ReleaseSends(s, u, n, t);
        BroadcastWakes(Step(s, Release(u)), u, n, t);
        assert Wakes(Step(s, Release(u)), u, t, n, 2);
      }
    } else {
      u := s.past.senders[n];
      assert Sends(s, u, n);
      BroadcastWakes(s, u, n, t);
    }
  }

  /** At most `steps` steps of task `u` wake task `t`. */
  ghost predicate Wakes(s: State, u: TaskId, t: TaskId, n: NotifyId, steps: nat)
    decreases steps
  {
    || IsParked(s, t, n, true)
    || (&& steps > 0 && u in s.tasks
        && (s.tasks[u].pc.Publishing? || s.tasks[u].pc.Releasing? || s.tasks[u].pc.Notifying?)
        && Wakes(Step(s, NextOf(s, u)), u, t, n, steps - 1))
  }

  // ----- When nobody is left to wake a follower -----

  /** The notify was handed out, is on no flight, and nobody is about to broadcast it. */
  ghost predicate Dead(s: State, n: NotifyId) {
    && n < s.nextNotify
    && (forall k :: k in s.flights ==> s.flights[k].notify != n)
    && (forall u :: !Sends(s, u, n))
  }

  lemma DroppedAmong(m: Flights, m': Flights, n: NotifyId)
    requires forall k :: k in m ==> m[k].notify != n
    ensures n !in Dropped(m, m')
  {
  }

  lemma PutKeepsDead(s: State, u: TaskId, task: Task, n: NotifyId)
    requires Dead(s, n) && !(task.pc.Notifying? && n in task.pc.sent)
    ensures Dead(Put(s, u, task), n)
  {
    assert forall v :: v != u ==> (Sends(Put(s, u, task), v, n) <==> Sends(s, v, n));
  }

  lemma WakeKeepsDead(s: State, ns: set<NotifyId>, flights: Flights, n: NotifyId)
    requires Dead(s, n) && forall k :: k in flights ==> k in s.flights && flights[k] == s.flights[k]
    ensures Dead(Wake(s, ns).(flights := flights), n)
  {
    assert forall v :: Sends(Wake(s, ns).(flights := flights), v, n) <==> Sends(s, v, n);
  }

  lemma LeadingKeepsDead(s: State, u: TaskId, n: NotifyId)
    requires Dead(s, n) && u in s.tasks
    ensures Dead(Leading(s, u), n)
  {
    assert forall v :: v != u ==> (Sends(Leading(s, u), v, n) <==> Sends(s, v, n));
  }

  lemma DecideKeepsDead(s: State, u: TaskId, victim: Key, n: NotifyId)
    requires Dead(s, n) && Enabled(s, Decide(u, victim))
    ensures Dead(Step(s, Decide(u, victim)), n)
  {
    var room := Evicted(s.flights, s.now, victim);
    var s1 := Wake(s, Dropped(s.flights, room)).(flights := room);
    WakeKeepsDead(s, Dropped(s.flights, room), room, n);
    if s.tasks[u].key in room {
      PutKeepsDead(s1, u, s1.tasks[u].(pc := Joining(room[s.tasks[u].key].notify)), n);
    } else {
      LeadingKeepsDead(s1, u, n);
    }
  }

  lemma ReleaseKeepsDead(s: State, u: TaskId, n: NotifyId)
    requires Dead(s, n) && Enabled(s, Release(u))
    ensures Dead(Step(s, Release(u)), n)
  {
    assert forall v :: v != u ==> (Sends(Step(s, Release(u)), v, n) <==> Sends(s, v, n));
  }

  lemma BroadcastKeepsDead(s: State, u: TaskId, n: NotifyId)
    requires Dead(s, n) && Enabled(s, Broadcast(u))
    ensures Dead(Step(s, Broadcast(u)), n)
  {
    PutKeepsDead(s, u, s.tasks[u].(pc := Done), n);
    var s1 := Goto(s, u, Done);
    WakeKeepsDead(s1, s.tasks[u].pc.sent, s1.flights, n);
  }

  /** The steps that change one call's place and touch neither the map nor a notify. */
  predicate IsPlain(e: Event) {
    !e.Decide? && !e.Release? && !e.Broadcast? && !e.Cleanup? && !e.Tick? && !e.CacheEvict?
  }

  lemma PlainKeepsDead(s: State, e: Event, n: NotifyId)
    requires Dead(s, n) && Enabled(s, e) && IsPlain(e)
    ensures Dead(Step(s, e), n)
  {
    var s' := Step(s, e);
    PutKeepsDead(s, e.t, s'.tasks[e.t], n);
    assert forall v :: Sends(s', v, n) <==> Sends(Put(s, e.t, s'.tasks[e.t]), v, n);
  }

  lemma StepKeepsDead(s: State, e: Event, n: NotifyId)
    requires Dead(s, n) && Enabled(s, e)
    ensures Dead(Step(s, e), n)
  {
    if IsPlain(e) {
      PlainKeepsDead(s, e, n);
    } else if e.Decide? {
      DecideKeepsDead(s, e.t, e.victim, n);
    } else if e.Release? {
      ReleaseKeepsDead(s, e.t, n);
    } else if e.Broadcast? {
      BroadcastKeepsDead(s, e.t, n);
    } else if e.Cleanup? {
      WakeKeepsDead(s, Dropped(s.flights, Current(s.flights, s.now)), Current(s.flights, s.now), n);
    } else {
      assert forall v :: Sends(Step(s, e), v, n) <==> Sends(s, v, n);
    }
  }

  predicate WaitsOn(pc: Pc, n: NotifyId) { (pc.Registered? || pc.Parked?) && pc.n == n }

  /** Whoever waits on a flight that a cleanup or a full map drops is woken by the same step. */
  lemma DroppedFlightWakes(s: State, e: Event, k: Key, u: TaskId)
    requires Enabled(s, e) && (e.Cleanup? || e.Decide?)
    requires k in s.flights && u in s.tasks && WaitsOn(s.tasks[u].pc, s.flights[k].notify)
    requires k in Step(s, e).flights ==> Step(s, e).flights[k].notify != s.flights[k].notify
    ensures
      var s', n := Step(s, e), s.flights[k].notify;
      u in s'.tasks && WaitsOn(s'.tasks[u].pc, n) && s'.tasks[u].pc.woken
  {
    var kept := if e.Cleanup? then Current(s.flights, s.now) else Evicted(s.flights, s.now, e.victim);
    assert k !in kept;
    DroppedIsWoken(s, kept, k, u);
  }

  lemma DroppedIsWoken(s: State, kept: Flights, k: Key, u: TaskId)
    requires k in s.flights && k !in kept && u in s.tasks && WaitsOn(s.tasks[u].pc, s.flights[k].notify)
    ensures
      var pc := Wake(s, Dropped(s.flights, kept)).tasks[u].pc;
      WaitsOn(pc, s.flights[k].notify) && pc.woken
  {
    assert s.flights[k].notify in Dropped(s.flights, kept);
  }

  /** A flight of thirty seconds does not outlive a cleanup, nor do its followers wait on. */
  lemma StaleFlightIsSwept(s: State, k: Key, u: TaskId)
    requires k in s.flights && s.now - s.flights[k].startedAt >= 30_000
    requires u in s.tasks && WaitsOn(s.tasks[u].pc, s.flights[k].notify)
    ensures
      var s', n := Step(s, Cleanup), s.flights[k].notify;
      k !in s'.flights && u in s'.tasks && WaitsOn(s'.tasks[u].pc, n) && s'.tasks[u].pc.woken
  {
    DroppedFlightWakes(s, Cleanup, k, u);
  }

  lemma WakeLeavesStranded(s: State, ns: set<NotifyId>, t: TaskId, n: NotifyId)
    requires IsParked(s, t, n, false) && n !in ns
    ensures IsParked(Wake(s, ns), t, n, false)
  {
  }

  lemma PlainLeavesStranded(s: State, e: Event, t: TaskId, n: NotifyId)
    requires IsParked(s, t, n, false) && Enabled(s, e) && e != Cancel(t) && IsPlain(e)
    ensures IsParked(Step(s, e), t, n, false)
  {
    assert e.t != t;
    assert Step(s, e).tasks[t] == s.tasks[t];
  }

  lemma DecideLeavesStranded(s: State, u: TaskId, victim: Key, t: TaskId, n: NotifyId)
    requires Dead(s, n) && IsParked(s, t, n, false) && Enabled(s, Decide(u, victim))
    ensures IsParked(Step(s, Decide(u, victim)), t, n, false)
  {
    var room := Evicted(s.flights, s.now, victim);
    DroppedAmong(s.flights, room, n);
    WakeLeavesStranded(s, Dropped(s.flights, room), t, n);
  }

  lemma BroadcastLeavesStranded(s: State, u: TaskId, t: TaskId, n: NotifyId)
    requires Dead(s, n) && IsParked(s, t, n, false) && Enabled(s, Broadcast(u))
    ensures IsParked(Step(s, Broadcast(u)), t, n, false)
  {
    assert !Sends(s, u, n);
    WakeLeavesStranded(Goto(s, u, Done), s.tasks[u].pc.sent, t, n);
  }

  /** No step of any run, calm or not, wakes a follower of a dead flight; it can only be cancelled. */
  lemma StepLeavesStranded(s: State, e: Event, t: TaskId, n: NotifyId)
    requires Dead(s, n) && IsParked(s, t, n, false) && Enabled(s, e) && e != Cancel(t)
    ensures IsParked(Step(s, e), t, n, false)
  {
    if IsPlain(e) {
      PlainLeavesStranded(s, e, t, n);
    } else if e.Decide? {
      DecideLeavesStranded(s, e.t, e.victim, t, n);
    } else if e.Cleanup? {
      var current := Current(s.flights, s.now);
      DroppedAmong(s.flights, current, n);
      WakeLeavesStranded(s, Dropped(s.flights, current), t, n);
    } else if e.Broadcast? {
      BroadcastLeavesStranded(s, e.t, t, n);
    }
  }

  lemma {:induction false} StrandedForever(s: State, events: seq<Event>, s': State, calm: bool, t: TaskId, n: NotifyId)
    requires Dead(s, n) && IsParked(s, t, n, false) && Reaches(s, events, s', calm) && Cancel(t) !in events
    ensures IsParked(s', t, n, false)
    decreases |events|
  {
    if events != [] {
      StepKeepsDead(s, events[0], n);
      StepLeavesStranded(s, events[0], t, n);
      StrandedForever(Step(s, events[0]), events[1..], s', calm, t, n);
    }
  }

  ghost predicate CanBeWoken(s: State, t: TaskId, n: NotifyId) {
    exists more, s' :: Reaches(s, more, s', false) && Cancel(t) !in more && IsParked(s', t, n, true)
  }

  /** A parked follower can be woken exactly while its flight is live: then some run wakes it, otherwise none does. */
  lemma WakeableIffLive(events: seq<Event>, s: State, t: TaskId, n: NotifyId)
    requires Reaches(INITIAL, events, s, true) && IsParked(s, t, n, false)
    ensures Live(s, n) <==> CanBeWoken(s, t, n)
  {
    InitialInv();
    CalmRunsKeepInv(INITIAL, events, s);
    if Live(s, n) {
      var more, s' := WakingRun(s, t, n);
    } else {
      NotLiveIsDead(s, t, n);
      DeadIsNotWoken(s, t, n);
    }
  }

  lemma DeadIsNotWoken(s: State, t: TaskId, n: NotifyId)
    requires Dead(s, n) && IsParked(s, t, n, false)
    ensures !CanBeWoken(s, t, n)
  {
    forall more, s' | Reaches(s, more, s', false) && Cancel(t) !in more ensures !IsParked(s', t, n, true) {
      StrandedForever(s, more, s', false, t, n);
    }
  }

  lemma NotLiveIsDead(s: State, t: TaskId, n: NotifyId)
    requires Protocol(s) && IsParked(s, t, n, false) && !Live(s, n)
    ensures Dead(s, n)
  {
    assert Named(s.tasks[t].pc) <= s.past.keyOf.Keys && n in Named(s.tasks[t].pc);
    forall k | k in s.flights ensures s.flights[k].notify != n { assert OnMap(s, s.flights[k].notify); }
  }

  lemma ResolvedWakerWakes(s: State, u: TaskId, t: TaskId, n: NotifyId) returns (s': State)
    requires Protocol(s) && IsParked(s, t, n, false) && Live(s, n) && u == WakerOf(s, n) && u in s.tasks
    requires s.tasks[u].pc.Resolving?
    ensures Enabled(s, ResolverReturns(u, None)) && s' == Step(s, ResolverReturns(u, None)) && Wakes(s', u, t, n, 3)
  {
    var e := ResolverReturns(u, None);
    s' := Step(s, e);
    LeaderKeepsProtocol(s, e);
    assert OnMap(s', n) == OnMap(s, n) && WakerOf(s', n) == u;
    var v := LeaderWakesFollowers(s', t, n);
  }

  lemma WakingRun(s: State, t: TaskId, n: NotifyId) returns (more: seq<Event>, s': State)
    requires Protocol(s) && IsParked(s, t, n, false) && Live(s, n)
    ensures Reaches(s, more, s', false) && Cancel(t) !in more && IsParked(s', t, n, true)
  {
    var u := LeaderWakesFollowers(s, t, n);
    if s.tasks[u].pc.Resolving? {
      var s1 := ResolvedWakerWakes(s, u, t, n);
      var rest;
      rest, s' := RunOf(s1, u, t, n, 3);
      more := [ResolverReturns(u, None)] + rest;
    } else {
      more, s' := RunOf(s, u, t, n, 3);
    }
  }

  lemma {:induction false} RunOf(s: State, u: TaskId, t: TaskId, n: NotifyId, steps: nat)
    returns (more: seq<Event>, s': State)
    requires Wakes(s, u, t, n, steps)
    ensures Reaches(s, more, s', false) && Cancel(t) !in more && IsParked(s', t, n, true)
    decreases steps
  {
    if IsParked(s, t, n, true) {
      more, s' := [], s;
    } else {
      var rest;
      rest, s' := RunOf(Step(s, NextOf(s, u)), u, t, n, steps - 1);
      more := [NextOf(s, u)] + rest;
    }
  }

  // ----- How often the resolver is called -----

  /** A call has made its one resolver call exactly when it leads or has led or has fallen through, and perhaps when it
      is done; it re-enters at most once, and falls through only after that. */
  predicate Frugal(task: Task) {
    && task.calls <= 1 && task.reentries == (if task.reentered then 1 else 0)
    && (task.calls == 1 ==> Leads(task.pc) || task.pc.Notifying? || task.pc.DirectCall? || task.pc.Done?)
    && (Leads(task.pc) || task.pc.Notifying? || task.pc.DirectCall? ==> task.calls == 1)
    && (task.pc.DirectCall? ==> task.reentered)
  }

  ghost predicate AllFrugal(s: State) { forall t :: t in s.tasks ==> Frugal(s.tasks[t]) }

  lemma WakeKeepsFrugal(s: State, ns: set<NotifyId>)
    requires AllFrugal(s)
    ensures AllFrugal(Wake(s, ns))
  {
    forall t | t in Wake(s, ns).tasks ensures Frugal(Wake(s, ns).tasks[t]) { assert Frugal(s.tasks[t]); }
  }

  lemma PutKeepsFrugal(s: State, t: TaskId, task: Task)
    requires AllFrugal(s) && Frugal(task)
    ensures AllFrugal(Put(s, t, task))
  {
  }

  lemma DecidedOneKeepsFrugal(s: State, t: TaskId, n: NotifyId)
    requires AllFrugal(s) && t in s.tasks && s.tasks[t].pc.Deciding?
    ensures AllFrugal(Goto(s, t, Joining(n))) && AllFrugal(Leading(s, t))
  {
    var task := s.tasks[t];
    assert Frugal(task);
    PutKeepsFrugal(s, t, task.(pc := Joining(n)));
    PutKeepsFrugal(s, t, task.(pc := Resolving(s.nextNotify), calls := task.calls + 1));
  }

  lemma MakingRoomKeepsFrugal(s: State, t: TaskId, room: Flights)
    requires AllFrugal(s) && t in s.tasks && s.tasks[t].pc.Deciding?
    ensures
      var s' := Wake(s, Dropped(s.flights, room)).(flights := room);
      AllFrugal(s') && t in s'.tasks && s'.tasks[t] == s.tasks[t]
  {
    WakeKeepsFrugal(s, Dropped(s.flights, room));
  }

  lemma DecideKeepsFrugal(s: State, t: TaskId, victim: Key)
    requires AllFrugal(s) && Enabled(s, Decide(t, victim))
    ensures AllFrugal(Step(s, Decide(t, victim)))
  {
    var room, key := Evicted(s.flights, s.now, victim), s.tasks[t].key;
    MakingRoomKeepsFrugal(s, t, room);
    var s' := Wake(s, Dropped(s.flights, room)).(flights := room);
    DecidedOneKeepsFrugal(s', t, if key in room then room[key].notify else 0);
  }

  lemma BroadcastKeepsFrugal(s: State, t: TaskId)
    requires AllFrugal(s) && Enabled(s, Broadcast(t))
    ensures AllFrugal(Step(s, Broadcast(t)))
  {
    assert Frugal(s.tasks[t]);
    PutKeepsFrugal(s, t, s.tasks[t].(pc := Done));
    WakeKeepsFrugal(Goto(s, t, Done), s.tasks[t].pc.sent);
  }

  lemma ReleaseKeepsFrugal(s: State, t: TaskId)
    requires AllFrugal(s) && Enabled(s, Release(t))
    ensures AllFrugal(Step(s, Release(t)))
  {
    assert Frugal(s.tasks[t]);
    PutKeepsFrugal(s, t, Step(s, Release(t)).tasks[t]);
  }

  lemma PlainIsFrugal(s: State, e: Event)
    requires AllFrugal(s) && Enabled(s, e) && IsPlain(e)
    ensures e.t in Step(s, e).tasks && Frugal(Step(s, e).tasks[e.t])
  {
    assert e.t in s.tasks ==> Frugal(s.tasks[e.t]);
  }

  lemma PlainMovesOne(s: State, e: Event)
    requires Enabled(s, e) && IsPlain(e)
    ensures e.t in Step(s, e).tasks && Step(s, e).tasks == s.tasks[e.t := Step(s, e).tasks[e.t]]
  {
  }

  lemma StepKeepsFrugal(s: State, e: Event)
    requires AllFrugal(s) && Enabled(s, e)
    ensures AllFrugal(Step(s, e))
  {
    if e.Decide? {
      DecideKeepsFrugal(s, e.t, e.victim);
    } else if e.Cleanup? {
      WakeKeepsFrugal(s, Dropped(s.flights, Current(s.flights, s.now)));
    } else if e.Broadcast? {
      BroadcastKeepsFrugal(s, e.t);
    } else if e.Release? {
      ReleaseKeepsFrugal(s, e.t);
    } else if IsPlain(e) {
      PlainIsFrugal(s, e);
      PlainMovesOne(s, e);
      PutKeepsFrugal(s, e.t, Step(s, e).tasks[e.t]);
    }
  }

  /** In every run, calm or not, a call invokes the resolver at most once and re-enters at most once. */
  lemma {:induction false} AtMostOneCallEach(s: State, events: seq<Event>, s': State, calm: bool)
    requires AllFrugal(s) && Reaches(s, events, s', calm)
    ensures AllFrugal(s')
    decreases |events|
  {
    if events != [] {
      StepKeepsFrugal(s, events[0]);
      AtMostOneCallEach(Step(s, events[0]), events[1..], s', calm);
    }
  }

  /** In every run, no call reaches the resolver outside a flight before it has re-entered. */
  lemma FallsThroughSecond(events: seq<Event>, s: State, calm: bool, t: TaskId)
    requires Reaches(INITIAL, events, s, calm) && t in s.tasks && s.tasks[t].pc.DirectCall?
    ensures s.tasks[t].reentered && s.tasks[t].reentries == 1
  {
    AtMostOneCallEach(INITIAL, events, s, calm);
    assert Frugal(s.tasks[t]);
  }

  /** What the map holds for a name decides the role: to follow its flight, or with none to lead a new one. */
  ghost predicate TakesItsRole(s: State, s': State, t: TaskId, key: Key) {
    && t in s'.tasks && s'.tasks[t].key == key
    && if key in s.flights then s'.tasks[t].pc == Joining(s.flights[key].notify) && s'.flights == s.flights
       else s'.tasks[t].pc == Resolving(s.nextNotify) && LeadsFor(s', t, key)
  }

  lemma DecideTakesARole(s: State, t: TaskId, victim: Key)
    requires Calm(s) && Enabled(s, Decide(t, victim))
    ensures TakesItsRole(s, Step(s, Decide(t, victim)), t, s.tasks[t].key)
  {
    CalmDropsNothing(s, victim);
  }

  /** The call, back for its second time and past the cache. */
  function Rejoined(s: State, t: TaskId): State
    requires t in s.tasks
  {
    var task := s.tasks[t];
    Put(s, t, task.(pc := Deciding, reentered := true, reentries := task.reentries + 1))
  }

  lemma FirstMissLooksAgain(s: State, t: TaskId)
    requires Enabled(s, CheckAgain(t)) && !s.tasks[t].reentered && !Hit(s, s.tasks[t].key)
    ensures
      var s1 := Step(s, CheckAgain(t));
      Enabled(s1, CheckCache(t)) && Step(s1, CheckCache(t)) == Rejoined(s, t)
  {
    var task := s.tasks[t];
    var s1 := Put(s, t, task.(pc := Start, reentered := true, reentries := task.reentries + 1));
    assert Step(s, CheckAgain(t)) == s1;
    assert s1.tasks[t := Rejoined(s, t).tasks[t]] == Rejoined(s, t).tasks;
  }

  /** After a leader that left no answer, a follower woken for the first time goes through the protocol once more under
      its own name, so that of all that were woken one leads and the others follow it. */
  lemma FirstMissRejoins(s: State, t: TaskId, victim: Key)
    requires Calm(s) && Enabled(s, CheckAgain(t)) && !s.tasks[t].reentered && !Hit(s, s.tasks[t].key)
    requires MayEvict(s.flights, s.now, victim)
    ensures
      var s1 := Step(s, CheckAgain(t));
      && Enabled(s1, CheckCache(t))
      && var s2 := Step(s1, CheckCache(t));
      && Enabled(s2, Decide(t, victim)) && TakesItsRole(s, Step(s2, Decide(t, victim)), t, s.tasks[t].key)
  {
    FirstMissLooksAgain(s, t);
    DecideTakesARole(Rejoined(s, t), t, victim);
  }

  /** And one that missed before calls the resolver itself. */
  lemma SecondMissFallsThrough(events: seq<Event>, s: State, calm: bool, t: TaskId)
    requires Reaches(INITIAL, events, s, calm) && Enabled(s, CheckAgain(t))
    requires s.tasks[t].reentered && !Hit(s, s.tasks[t].key)
    ensures Step(s, CheckAgain(t)).tasks[t].pc.DirectCall? && Step(s, CheckAgain(t)).tasks[t].calls == 1
  {
    AtMostOneCallEach(INITIAL, events, s, calm);
    assert Frugal(s.tasks[t]);
  }

  lemma WokenIsNotDone(s: State, ns: set<NotifyId>, t: TaskId)
    requires t in s.tasks && !s.tasks[t].pc.Done?
    ensures t in Wake(s, ns).tasks && !Wake(s, ns).tasks[t].pc.Done?
  {
  }

  lemma PutEndsNobody(s: State, u: TaskId, task: Task, t: TaskId)
    requires t in s.tasks && !s.tasks[t].pc.Done? && !task.pc.Done?
    ensures t in Put(s, u, task).tasks && !Put(s, u, task).tasks[t].pc.Done?
  {
  }

  lemma DecideEndsNobody(s: State, u: TaskId, victim: Key, t: TaskId)
    requires Enabled(s, Decide(u, victim)) && t in s.tasks && !s.tasks[t].pc.Done?
    ensures t in Step(s, Decide(u, victim)).tasks && !Step(s, Decide(u, victim)).tasks[t].pc.Done?
  {
    var room := Evicted(s.flights, s.now, victim);
    WokenIsNotDone(s, Dropped(s.flights, room), t);
    var s' := Wake(s, Dropped(s.flights, room)).(flights := room);
    PutEndsNobody(s', u, Decided(s, u, victim).tasks[u], t);
  }

  lemma ReleaseEndsNobody(s: State, u: TaskId, t: TaskId)
    requires Enabled(s, Release(u)) && t in s.tasks && !s.tasks[t].pc.Done?
    ensures t in Step(s, Release(u)).tasks && !Step(s, Release(u)).tasks[t].pc.Done?
  {
  }

  /** A call's place is Done only through a step of its own. */
  lemma OnlyOwnStepsEnd(s: State, e: Event, t: TaskId)
    requires Enabled(s, e) && t in s.tasks && !s.tasks[t].pc.Done? && (IsPlain(e) ==> e.t != t)
    ensures !e.Broadcast? || e.t != t ==> t in Step(s, e).tasks && !Step(s, e).tasks[t].pc.Done?
  {
    if e.Decide? {
      DecideEndsNobody(s, e.t, e.victim, t);
    } else if e.Release? {
      ReleaseEndsNobody(s, e.t, t);
    } else if e.Broadcast? {
      if e.t != t { WokenIsNotDone(Goto(s, e.t, Done), s.tasks[e.t].pc.sent, t); }
    } else if e.Cleanup? {
      WokenIsNotDone(s, Dropped(s.flights, Current(s.flights, s.now)), t);
    } else if IsPlain(e) {
      PlainMovesOne(s, e);
    }
  }

  lemma OwnStepAnswers(s: State, e: Event)
    requires Enabled(s, e) && IsPlain(e) && !e.Cancel? && !e.Call? && Frugal(s.tasks[e.t])
    ensures e.t in Step(s, e).tasks
    ensures Step(s, e).tasks[e.t].pc.Done? ==> Hit(s, s.tasks[e.t].key) || s.tasks[e.t].calls == 1
  {
  }

  /** Uncancelled, no call is done without an answer: from the cache at that step, or from the resolver. */
  lemma DoneIsAnswered(events: seq<Event>, s: State, calm: bool, e: Event, t: TaskId)
    requires Reaches(INITIAL, events, s, calm) && Enabled(s, e) && e != Cancel(t)
    requires t in s.tasks && !s.tasks[t].pc.Done? && t in Step(s, e).tasks && Step(s, e).tasks[t].pc.Done?
    ensures Hit(s, s.tasks[t].key) || s.tasks[t].calls == 1
  {
    AtMostOneCallEach(INITIAL, events, s, calm);
    assert Frugal(s.tasks[t]);
    if IsPlain(e) && e.t == t {
      OwnStepAnswers(s, e);
    } else {
      OnlyOwnStepsEnd(s, e, t);
    }
  }

  // ----- When a cached name is resolved again -----

  /** A run through states that all hold a fresh entry for the name. */
  ghost predicate FreshRun(s: State, events: seq<Event>, s': State, key: Key)
    decreases |events|
  {
    && Hit(s, key)
    && if events == [] then s == s' else Enabled(s, events[0]) && FreshRun(Step(s, events[0]), events[1..], s', key)
  }

  function CallsOf(tasks: map<TaskId, Task>, t: TaskId): nat { if t in tasks then tasks[t].calls else 0 }

  /** A call of another name, or one that is not between its cache miss and the in-flight lock and has called the
      resolver no more often than in the earlier state. */
  predicate IsSettled(before: map<TaskId, Task>, t: TaskId, task: Task, key: Key) {
    task.key == key ==> !task.pc.Deciding? && task.calls == CallsOf(before, t)
  }

  ghost predicate Settled(before: map<TaskId, Task>, tasks: map<TaskId, Task>, key: Key) {
    before.Keys <= tasks.Keys && forall t :: t in tasks ==> IsSettled(before, t, tasks[t], key)
  }

  lemma PutKeepsSettled(before: map<TaskId, Task>, tasks: map<TaskId, Task>, t: TaskId, task: Task, key: Key)
    requires Settled(before, tasks, key) && IsSettled(before, t, task, key)
    ensures Settled(before, tasks[t := task], key)
  {
  }

  lemma WakeKeepsSettled(before: map<TaskId, Task>, s: State, ns: set<NotifyId>, key: Key)
    requires Settled(before, s.tasks, key)
    ensures Settled(before, Wake(s, ns).tasks, key)
  {
    forall t | t in s.tasks ensures IsSettled(before, t, Wake(s, ns).tasks[t], key) {
      assert IsSettled(before, t, s.tasks[t], key);
    }
  }

  lemma PlainKeepsSettled(before: map<TaskId, Task>, s: State, e: Event, key: Key)
    requires Settled(before, s.tasks, key) && Hit(s, key) && Enabled(s, e) && IsPlain(e)
    ensures Settled(before, Step(s, e).tasks, key)
  {
    assert e.t in s.tasks ==> IsSettled(before, e.t, s.tasks[e.t], key);
    PutKeepsSettled(before, s.tasks, e.t, Step(s, e).tasks[e.t], key);
  }

  lemma DecideKeepsSettled(before: map<TaskId, Task>, s: State, t: TaskId, victim: Key, key: Key)
    requires Settled(before, s.tasks, key) && Enabled(s, Decide(t, victim))
    ensures Settled(before, Step(s, Decide(t, victim)).tasks, key)
  {
    assert IsSettled(before, t, s.tasks[t], key);
    var room := Evicted(s.flights, s.now, victim);
    var s1 := Wake(s, Dropped(s.flights, room));
    WakeKeepsSettled(before, s, Dropped(s.flights, room), key);
    PutKeepsSettled(before, s1.tasks, t, Step(s, Decide(t, victim)).tasks[t], key);
  }

  lemma BroadcastKeepsSettled(before: map<TaskId, Task>, s: State, t: TaskId, key: Key)
    requires Settled(before, s.tasks, key) && Enabled(s, Broadcast(t))
    ensures Settled(before, Step(s, Broadcast(t)).tasks, key)
  {
    assert IsSettled(before, t, s.tasks[t], key);
    PutKeepsSettled(before, s.tasks, t, s.tasks[t].(pc := Done), key);
    WakeKeepsSettled(before, Goto(s, t, Done), s.tasks[t].pc.sent, key);
  }

  lemma StepKeepsSettled(before: map<TaskId, Task>, s: State, e: Event, key: Key)
    requires Settled(before, s.tasks, key) && Hit(s, key) && Enabled(s, e)
    ensures Settled(before, Step(s, e).tasks, key)
  {
    if e.Decide? {
      DecideKeepsSettled(before, s, e.t, e.victim, key);
    } else if e.Cleanup? {
      WakeKeepsSettled(before, s, Dropped(s.flights, Current(s.flights, s.now)), key);
    } else if e.Broadcast? {
      BroadcastKeepsSettled(before, s, e.t, key);
    } else if e.Release? {
      assert IsSettled(before, e.t, s.tasks[e.t], key);
      PutKeepsSettled(before, s.tasks, e.t, Step(s, e).tasks[e.t], key);
    } else if IsPlain(e) {
      PlainKeepsSettled(before, s, e, key);
    }
  }

  lemma {:induction false} FreshRunSettles(before: map<TaskId, Task>, s: State, events: seq<Event>, s': State, key: Key)
    requires FreshRun(s, events, s', key) && Settled(before, s.tasks, key)
    ensures Settled(before, s'.tasks, key)
    decreases |events|
  {
    if events != [] {
      StepKeepsSettled(before, s, events[0], key);
      FreshRunSettles(before, Step(s, events[0]), events[1..], s', key);
    }
  }

  /** Some call of the name has called the resolver more often in the later state. */
  ghost predicate ResolvedAgain(before: map<TaskId, Task>, after: map<TaskId, Task>, key: Key) {
    exists t :: t in after && after[t].key == key && after[t].calls > CallsOf(before, t)
  }

  ghost predicate CanBeResolvedAgain(s: State, key: Key) {
    exists events, s' :: FreshRun(s, events, s', key) && ResolvedAgain(s.tasks, s'.tasks, key)
  }

  ghost predicate SomeInGap(s: State, key: Key) {
    exists t :: t in s.tasks && s.tasks[t].key == key && s.tasks[t].pc.Deciding?
  }

  lemma NoGapNoCall(s: State, key: Key)
    requires !SomeInGap(s, key)
    ensures !CanBeResolvedAgain(s, key)
  {
    forall events, s' | FreshRun(s, events, s', key) ensures !ResolvedAgain(s.tasks, s'.tasks, key) {
      assert Settled(s.tasks, s.tasks, key);
      FreshRunSettles(s.tasks, s, events, s', key);
      assert forall t :: t in s'.tasks ==> IsSettled(s.tasks, t, s'.tasks[t], key);
    }
  }

  lemma GapCalls(s: State, key: Key, t: TaskId) returns (s': State)
    requires Calm(s) && Hit(s, key) && key !in s.flights && t in s.tasks && s.tasks[t].key == key
    requires s.tasks[t].pc.Deciding?
    ensures Enabled(s, Decide(t, key)) && s' == Step(s, Decide(t, key)) && ResolvedAgain(s.tasks, s'.tasks, key)
    ensures Hit(s', key)
  {
    CalmDropsNothing(s, key);
    s' := Leading(s, t);
    assert s'.tasks[t].key == key && s'.tasks[t].calls == s.tasks[t].calls + 1;
  }

  /** With a fresh entry and no flight for a name, some run that keeps the entry fresh resolves it again exactly when a
      call sits between its cache miss and the in-flight lock. */
  lemma ResolvedAgainIff(s: State, key: Key)
    requires Calm(s) && Hit(s, key) && key !in s.flights
    ensures CanBeResolvedAgain(s, key) <==> SomeInGap(s, key)
  {
    if t :| t in s.tasks && s.tasks[t].key == key && s.tasks[t].pc.Deciding? {
      var s' := GapCalls(s, key, t);
      OneStepFreshRun(s, Decide(t, key), key);
    } else {
      NoGapNoCall(s, key);
    }
  }

  lemma OneStepFreshRun(s: State, e: Event, key: Key)
    requires Enabled(s, e) && Hit(s, key) && Hit(Step(s, e), key)
    ensures FreshRun(s, [e], Step(s, e), key)
  {
    assert [e][1..] == [];
    assert FreshRun(Step(s, e), [e][1..], Step(s, e), key);
  }

  // ----- Two calm runs -----

  lemma {:induction false} Then(s: State, events: seq<Event>, m: State, e: Event)
    requires Reaches(s, events, m, true) && Calm(m) && Enabled(m, e)
    ensures Reaches(s, events + [e], Step(m, e), true)
    decreases |events|
  {
    if events == [] {
      assert [] + [e] == [e] && [e][1..] == [];
    } else {
      assert (events + [e])[1..] == events[1..] + [e];
      Then(Step(s, events[0]), events[1..], m, e);
    }
  }

  /** A state at instant 0 that knows one name: its flight, until when it is cached, and who calls. */
  ghost predicate Looks(s: State, key: Key, flight: Option<NotifyId>, next: NotifyId, until: Option<Time>,
        tasks: map<TaskId, Task>)
  {
    && s.now == 0 && s.nextNotify == next && s.tasks == tasks
    && s.flights == (if flight.Some? then map[key := Flight(flight.value, 0)] else map[])
    && s.cache == (if until.Some? then map[key := until.value] else map[])
  }

  lemma LooksCalm(s: State, key: Key, flight: Option<NotifyId>, next: NotifyId, until: Option<Time>,
        tasks: map<TaskId, Task>)
    requires Looks(s, key, flight, next, until, tasks)
    ensures Calm(s)
  {
    assert |s.flights| <= 1;
  }

  /** Takes a step into a state of which the looks are known. */
  lemma Go(events: seq<Event>, s: State, e: Event, key: Key, flight: Option<NotifyId>, next: NotifyId,
        until: Option<Time>, tasks: map<TaskId, Task>)
    returns (events': seq<Event>, s': State)
    requires Reaches(INITIAL, events, s, true) && Looks(s, key, flight, next, until, tasks) && Enabled(s, e)
    ensures s' == Step(s, e) && Reaches(INITIAL, events', s', true)
  {
    LooksCalm(s, key, flight, next, until, tasks);
    Then(INITIAL, events, s, e);
    events', s' := events + [e], Step(s, e);
  }

  lemma Calls(events: seq<Event>, s: State, key: Key, flight: Option<NotifyId>, next: NotifyId,
        tasks: map<TaskId, Task>, t: TaskId)
    returns (events': seq<Event>, s': State)
    requires Reaches(INITIAL, events, s, true) && Looks(s, key, flight, next, None, tasks) && t !in tasks
    ensures Reaches(INITIAL, events', s', true)
    ensures Looks(s', key, flight, next, None, tasks[t := Task(key, Deciding, false, 0, 0)])
  {
    var es, m := Go(events, s, Call(t, key), key, flight, next, None, tasks);
    var tasks' := tasks[t := Task(key, Start, false, 0, 0)];
    events', s' := Go(es, m, CheckCache(t), key, flight, next, None, tasks');
  }

  lemma DecideLooks(s: State, key: Key, flight: Option<NotifyId>, next: NotifyId, until: Option<Time>,
        tasks: map<TaskId, Task>, t: TaskId)
    requires Looks(s, key, flight, next, until, tasks) && t in tasks && tasks[t] == Task(key, Deciding, false, 0, 0)
    ensures Enabled(s, Decide(t, key))
    ensures flight.None? ==>
      var tasks' := tasks[t := Task(key, Resolving(next), false, 1, 0)];
      Looks(Step(s, Decide(t, key)), key, Some(next), next + 1, until, tasks')
    ensures flight.Some? ==>
      var tasks' := tasks[t := Task(key, Joining(flight.value), false, 0, 0)];
      Looks(Step(s, Decide(t, key)), key, flight, next, until, tasks')
  {
    LooksCalm(s, key, flight, next, until, tasks);
    CalmDropsNothing(s, key);
  }

  lemma Decides(events: seq<Event>, s: State, key: Key, flight: Option<NotifyId>, next: NotifyId, until: Option<Time>,
        tasks: map<TaskId, Task>, t: TaskId)
    returns (events': seq<Event>, s': State)
    requires Reaches(INITIAL, events, s, true) && Looks(s, key, flight, next, until, tasks) && t in tasks
    requires tasks[t] == Task(key, Deciding, false, 0, 0)
    ensures Reaches(INITIAL, events', s', true)
    ensures flight.None? ==>
      Looks(s', key, Some(next), next + 1, until, tasks[t := Task(key, Resolving(next), false, 1, 0)])
    ensures flight.Some? ==>
      Looks(s', key, flight, next, until, tasks[t := Task(key, Joining(flight.value), false, 0, 0)])
  {
    DecideLooks(s, key, flight, next, until, tasks, t);
    events', s' := Go(events, s, Decide(t, key), key, flight, next, until, tasks);
  }

  function UntilOf(ttl: Option<nat>): Option<Time> { if ttl.Some? then Some(ttl.value) else None }

  lemma Resolves(events: seq<Event>, s: State, key: Key, n: NotifyId, next: NotifyId, ttl: Option<nat>,
        tasks: map<TaskId, Task>, t: TaskId)
    returns (events': seq<Event>, s': State)
    requires Reaches(INITIAL, events, s, true) && Looks(s, key, Some(n), next, None, tasks) && t in tasks
    requires tasks[t] == Task(key, Resolving(n), false, 1, 0)
    ensures Reaches(INITIAL, events', s', true)
    ensures Looks(s', key, Some(n), next, UntilOf(ttl), tasks[t := Task(key, Releasing(n), false, 1, 0)])
  {
    events', s' := Go(events, s, ResolverReturns(t, ttl), key, Some(n), next, None, tasks);
    if ttl.Some? {
      var tasks' := tasks[t := Task(key, Publishing(n, ttl.value), false, 1, 0)];
      events', s' := Go(events', s', Publish(t), key, Some(n), next, None, tasks');
      assert s'.tasks == tasks[t := Task(key, Releasing(n), false, 1, 0)];
    }
  }

  lemma ReleaseLooks(s: State, key: Key, n: NotifyId, next: NotifyId, until: Option<Time>, tasks: map<TaskId, Task>,
        t: TaskId)
    requires Looks(s, key, Some(n), next, until, tasks) && t in tasks
    requires tasks[t] == Task(key, Releasing(n), false, 1, 0)
    ensures Looks(Step(s, Release(t)), key, None, next, until, tasks[t := Task(key, Notifying({n}), false, 1, 0)])
  {
  }

  ghost predicate NobodyWaits(tasks: map<TaskId, Task>, n: NotifyId) {
    forall u :: u in tasks ==> WokenPc(tasks[u].pc, {n}) == tasks[u].pc
  }

  lemma BroadcastLooks(s: State, key: Key, n: NotifyId, next: NotifyId, until: Option<Time>, tasks: map<TaskId, Task>,
        t: TaskId)
    requires Looks(s, key, None, next, until, tasks) && t in tasks && tasks[t] == Task(key, Notifying({n}), false, 1, 0)
    requires NobodyWaits(tasks, n)
    ensures Looks(Step(s, Broadcast(t)), key, None, next, until, tasks[t := Task(key, Done, false, 1, 0)])
  {
    assert Step(s, Broadcast(t)).tasks == tasks[t := Task(key, Done, false, 1, 0)];
  }

  lemma Leaves(events: seq<Event>, s: State, key: Key, n: NotifyId, next: NotifyId, until: Option<Time>,
        tasks: map<TaskId, Task>, t: TaskId)
    returns (events': seq<Event>, s': State)
    requires Reaches(INITIAL, events, s, true) && Looks(s, key, Some(n), next, until, tasks) && t in tasks
    requires tasks[t] == Task(key, Releasing(n), false, 1, 0)
    ensures Reaches(INITIAL, events', s', true)
    ensures Looks(s', key, None, next, until, tasks[t := Task(key, Notifying({n}), false, 1, 0)])
  {
    ReleaseLooks(s, key, n, next, until, tasks, t);
    events', s' := Go(events, s, Release(t), key, Some(n), next, until, tasks);
  }

  lemma Ends(events: seq<Event>, s: State, key: Key, n: NotifyId, next: NotifyId, until: Option<Time>,
        tasks: map<TaskId, Task>, t: TaskId)
    returns (events': seq<Event>, s': State)
    requires Reaches(INITIAL, events, s, true) && Looks(s, key, None, next, until, tasks) && t in tasks
    requires tasks[t] == Task(key, Notifying({n}), false, 1, 0)
    requires NobodyWaits(tasks, n)
    ensures Reaches(INITIAL, events', s', true)
    ensures Looks(s', key, None, next, until, tasks[t := Task(key, Done, false, 1, 0)])
  {
    BroadcastLooks(s, key, n, next, until, tasks, t);
    events', s' := Go(events, s, Broadcast(t), key, None, next, until, tasks);
  }

  lemma Parks(events: seq<Event>, s: State, key: Key, next: NotifyId, tasks: map<TaskId, Task>, t: TaskId,
        n: NotifyId)
    returns (events': seq<Event>, s': State)
    requires Reaches(INITIAL, events, s, true) && Looks(s, key, None, next, None, tasks) && t in tasks
    requires tasks[t] == Task(key, Joining(n), false, 0, 0)
    ensures Reaches(INITIAL, events', s', true) && IsParked(s', t, n, false)
    ensures t in s'.tasks && Looks(s', key, None, next, None, tasks[t := s'.tasks[t]])
  {
    var es, m := Go(events, s, Register(t), key, None, next, None, tasks);
    var tasks' := tasks[t := Task(key, Registered(n, false), false, 0, 0)];
    events', s' := Go(es, m, Recheck(t), key, None, next, None, tasks');
  }

  /** Call 0 leads the flight of notify 0, and call 1 has chosen to follow it and let go of the lock. */
  lemma LeaderAndJoiner(key: Key) returns (events: seq<Event>, s: State)
    ensures Reaches(INITIAL, events, s, true)
    ensures Looks(s, key, Some(0), 1, None,
      map[0 := Task(key, Resolving(0), false, 1, 0), 1 := Task(key, Joining(0), false, 0, 0)])
  {
    events, s := Calls([], INITIAL, key, None, 0, map[], 0);
    events, s := Decides(events, s, key, None, 0, None, s.tasks, 0);
    events, s := Calls(events, s, key, Some(0), 1, s.tasks, 1);
    events, s := Decides(events, s, key, Some(0), 1, None, s.tasks, 1);
  }

  lemma ClearsUnheard(events: seq<Event>, s: State, key: Key, n: NotifyId, next: NotifyId, until: Option<Time>,
        tasks: map<TaskId, Task>, t: TaskId)
    returns (events': seq<Event>, s': State)
    requires Reaches(INITIAL, events, s, true) && Looks(s, key, Some(n), next, until, tasks)
    requires t in tasks && tasks[t] == Task(key, Releasing(n), false, 1, 0) && NobodyWaits(tasks, n)
    ensures Reaches(INITIAL, events', s', true)
    ensures Looks(s', key, None, next, until, tasks[t := Task(key, Done, false, 1, 0)])
  {
    events', s' := Leaves(events, s, key, n, next, until, tasks, t);
    var notifying := tasks[t := Task(key, Notifying({n}), false, 1, 0)];
    events', s' := Ends(events', s', key, n, next, until, notifying, t);
    assert notifying[t := Task(key, Done, false, 1, 0)] == tasks[t := Task(key, Done, false, 1, 0)];
  }

  /** A leader without waiters comes to its end: its call is done, and its name is off the map. */
  lemma EndsUnheard(events: seq<Event>, s: State, key: Key, n: NotifyId, next: NotifyId, ttl: Option<nat>,
        tasks: map<TaskId, Task>, t: TaskId)
    returns (events': seq<Event>, s': State)
    requires Reaches(INITIAL, events, s, true) && Looks(s, key, Some(n), next, None, tasks)
    requires t in tasks && tasks[t] == Task(key, Resolving(n), false, 1, 0) && NobodyWaits(tasks, n)
    ensures Reaches(INITIAL, events', s', true)
    ensures Looks(s', key, None, next, UntilOf(ttl), tasks[t := Task(key, Done, false, 1, 0)])
  {
    var until := UntilOf(ttl);
    events', s' := Resolves(events, s, key, n, next, ttl, tasks, t);
    var releasing := tasks[t := Task(key, Releasing(n), false, 1, 0)];
    events', s' := ClearsUnheard(events', s', key, n, next, until, releasing, t);
    assert releasing[t := Task(key, Done, false, 1, 0)] == tasks[t := Task(key, Done, false, 1, 0)];
  }

  lemma DoneAndParkedSendNothing(s: State, n: NotifyId)
    requires forall t :: t in s.tasks ==> s.tasks[t].pc.Done? || s.tasks[t].pc.Parked?
    ensures forall u :: !Sends(s, u, n)
  {
  }

  /** A transport error between a follower's letting go of the lock and its registering strands it for good. */
  lemma FollowerCanBeStranded(key: Key) returns (events: seq<Event>, s: State)
    ensures Reaches(INITIAL, events, s, true) && IsParked(s, 1, 0, false) && !CanBeWoken(s, 1, 0)
  {
    events, s := LeaderAndJoiner(key);
    events, s := EndsUnheard(events, s, key, 0, 1, None, s.tasks, 0);
    events, s := Parks(events, s, key, 1, s.tasks, 1, 0);
    DoneAndParkedSendNothing(s, 0);
    assert Dead(s, 0);
    DeadIsNotWoken(s, 1, 0);
  }

  /** Call 0 leads the flight of notify 0, and call 1 has missed the cache and not yet looked at the map. */
  lemma LeaderAndDecider(key: Key) returns (events: seq<Event>, s: State)
    ensures Reaches(INITIAL, events, s, true)
    ensures
      var tasks := map[0 := Task(key, Resolving(0), false, 1, 0), 1 := Task(key, Deciding, false, 0, 0)];
      Looks(s, key, Some(0), 1, None, tasks)
  {
    events, s := Calls([], INITIAL, key, None, 0, map[], 0);
    events, s := Calls(events, s, key, None, 0, s.tasks, 1);
    events, s := Decides(events, s, key, None, 0, None, s.tasks, 0);
  }

  /** A call that missed the cache before the leader published makes a second resolver call, though the answer is
      cached. */
  lemma ResolverCanBeCalledTwice(key: Key, ttl: nat) returns (events: seq<Event>, s: State)
    requires ttl > 0
    ensures Reaches(INITIAL, events, s, true) && Hit(s, key)
    ensures 0 in s.tasks && 1 in s.tasks && s.tasks[0].key == s.tasks[1].key == key
    ensures s.tasks[0].calls == s.tasks[1].calls == 1
  {
    events, s := LeaderAndDecider(key);
    events, s := EndsUnheard(events, s, key, 0, 1, Some(ttl), s.tasks, 0);
    events, s := Decides(events, s, key, None, 1, Some(ttl), s.tasks, 1);
  }
}
