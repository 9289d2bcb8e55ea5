/** The map of names being resolved (src/mojang.rs). Times are in milliseconds. */
module InFlight {
  type Key = string
  type Time = int
  type NotifyId = nat
  datatype Flight = Flight(notify: NotifyId, startedAt: Time)
  type Flights = map<Key, Flight>

  const MAX_ENTRIES: nat := 4096
  const STALE_AFTER: nat := 30_000

  predicate IsStale(f: Flight, now: Time) { now - f.startedAt >= STALE_AFTER }

  function Current(m: Flights, now: Time): (r: Flights)
    ensures r.Keys <= m.Keys
  {
    map k | k in m && !IsStale(m[k], now) :: m[k]
  }

  predicate IsOldest(m: Flights, k: Key) { k in m && forall j :: j in m ==> m[k].startedAt <= m[j].startedAt }

  /** The flights with room for one more: swept when full, and short of `victim` when still full. */
  function Evicted(m: Flights, now: Time, victim: Key): (r: Flights)
    ensures r.Keys <= m.Keys
  {
    if |m| < MAX_ENTRIES then m
    else if |Current(m, now)| < MAX_ENTRIES then Current(m, now)
    else Current(m, now) - {victim}
  }

  predicate MayEvict(m: Flights, now: Time, victim: Key) {
    |m| >= MAX_ENTRIES && |Current(m, now)| >= MAX_ENTRIES ==> IsOldest(Current(m, now), victim)
  }

  lemma SubmapSize(m: Flights, m': Flights)
    requires m'.Keys <= m.Keys
    ensures |m'| <= |m|
  {
    assert m.Keys == m'.Keys + (m.Keys - m'.Keys);
    assert |m.Keys| == |m| && |m'.Keys| == |m'|;
  }

  /** Making room loses no flight below the cap, and at the cap only those of thirty seconds and more, and at most one
      other, with none older. */
  lemma EvictionMakesRoom(m: Flights, now: Time, victim: Key)
    requires |m| <= MAX_ENTRIES && MayEvict(m, now, victim)
    ensures
      var m' := Evicted(m, now, victim);
      && |m'| < MAX_ENTRIES && (|m| < MAX_ENTRIES ==> m' == m)
      && (forall k :: k in m' ==> k in m && m'[k] == m[k])
      && (forall k :: k in m && k !in m' && now - m[k].startedAt < STALE_AFTER ==>
        k == victim && forall j :: j in m' ==> m[k].startedAt <= m'[j].startedAt)
  {
    var current := Current(m, now);
    SubmapSize(m, current);
    if |m| >= MAX_ENTRIES && |current| >= MAX_ENTRIES {
      assert current.Keys == (current - {victim}).Keys + {victim};
      assert |current.Keys| == |current| && |(current - {victim}).Keys| == |current - {victim}|;
    }
  }

  /** The notifies of the flights that went from one map to the other. */
  function Dropped(m: Flights, m': Flights): set<NotifyId> {
    set k | k in m && k !in m' :: m[k].notify
  }

  datatype Role = Leader(notify: NotifyId) | FollowerOf(notify: NotifyId)

  class InFlight {
    var flights: Flights
    var nextNotify: NotifyId
    /** The notifies that have been broadcast. */
    var broadcast: set<NotifyId>

    constructor ()
      ensures flights == map[] && nextNotify == 0 && broadcast == {}
    {
      flights, nextNotify, broadcast := map[], 0, {};
    }

    /** Drops the given flights and wakes who waits on them, under the lock. */
    method DropAll(keys: set<Key>)
      modifies this`flights, this`broadcast
      ensures flights == old(flights) - keys
      ensures broadcast == old(broadcast) + Dropped(old(flights), flights)
    {
      var left := keys;
      while left != {}
        invariant left <= keys && flights == old(flights) - (keys - left)
        invariant broadcast == old(broadcast) + Dropped(old(flights), flights)
        decreases |left|
      {
        var k :| k in left;
        if k in flights {
          ghost var before := flights;
          broadcast := broadcast + {flights[k].notify};
          flights := flights - {k};
          assert Dropped(old(flights), flights) == Dropped(old(flights), before) + {before[k].notify};
        }
        left := left - {k};
      }
    }

    method SweepStale(now: Time)
      modifies this`flights, this`broadcast
      ensures flights == Current(old(flights), now)
      ensures broadcast == old(broadcast) + Dropped(old(flights), flights)
    {
      DropAll(set k | k in flights && IsStale(flights[k], now));
    }

    method FindOldest() returns (oldest: Key)
      requires flights != map[]
      ensures IsOldest(flights, oldest)
    {
      oldest :| oldest in flights;
      var left := flights.Keys - {oldest};
      while left != {}
        invariant left <= flights.Keys && oldest in flights
        invariant forall k :: k in flights && k !in left ==> flights[oldest].startedAt <= flights[k].startedAt
        decreases |left|
      {
        var k :| k in left;
        if flights[k].startedAt < flights[oldest].startedAt { oldest := k; }
        left := left - {k};
      }
    }

    method EvictIfNeeded(now: Time) returns (ghost victim: Key)
      modifies this`flights, this`broadcast
      ensures MayEvict(old(flights), now, victim) && flights == Evicted(old(flights), now, victim)
      ensures broadcast == old(broadcast) + Dropped(old(flights), flights)
    {
      victim := "";
      if |flights| < MAX_ENTRIES { return; }
      SweepStale(now);
      if |flights| < MAX_ENTRIES { return; }
      assert flights != map[];
      var oldest := FindOldest();
      victim := oldest;
      ghost var swept, sent := flights, broadcast;
      DropAll({oldest});
      assert Dropped(old(flights), flights) == Dropped(old(flights), swept) + Dropped(swept, flights);
    }

    /** One lock region: make room, then join the flight of this name or start one. */
    method DecideRole(key: Key, now: Time) returns (role: Role, ghost victim: Key)
      modifies this
      ensures MayEvict(old(flights), now, victim)
      ensures
        var room := Evicted(old(flights), now, victim);
        && broadcast == old(broadcast) + Dropped(old(flights), room)
        && (if key in room then role == FollowerOf(room[key].notify) && flights == room && nextNotify == old(nextNotify)
            else role == Leader(old(nextNotify)) && flights == room[key := Flight(old(nextNotify), now)] &&
                 nextNotify == old(nextNotify) + 1)
      ensures |old(flights)| <= MAX_ENTRIES ==> |flights| <= MAX_ENTRIES
    {
      if |flights| <= MAX_ENTRIES {
        forall v | MayEvict(flights, now, v) ensures |Evicted(flights, now, v)| < MAX_ENTRIES {
          EvictionMakesRoom(flights, now, v);
        }
      }
      victim := EvictIfNeeded(now);
      if key in flights {
        return FollowerOf(flights[key].notify), victim;
      }
      role := Leader(nextNotify);
      ghost var room := flights;
      flights, nextNotify := flights[key := Flight(nextNotify, now)], nextNotify + 1;
      assert flights.Keys == room.Keys + {key};
      assert |flights.Keys| == |flights| && |room.Keys| == |room|;
    }

    /** A leader takes its name off the map, whoever's flight is there; what it took is broadcast after the lock. */
    method Remove(key: Key) returns (removed: set<NotifyId>)
      modifies this`flights
      ensures flights == old(flights) - {key}
      ensures removed == if key in old(flights) then {old(flights)[key].notify} else {}
    {
      removed := if key in flights then {flights[key].notify} else {};
      flights := flights - {key};
    }

    method CleanupInFlight(now: Time)
      modifies this`flights, this`broadcast
      ensures flights == Current(old(flights), now)
      ensures broadcast == old(broadcast) + Dropped(old(flights), flights)
    {
      SweepStale(now);
    }
  }
}
