/**
 Rate counters and once-only resets: the in-memory maps that serve when Redis is
 disabled, and the two Lua scripts that serve when it is not.  Both are proved
 against the window of RateWindow.  Clock readings are parameters.
 */
module RedisService {
  import opened Common
  import opened RateWindow

  type Key = string
  type OperationId = nat

  const CAPACITY := 10_000
  const RESET_RETENTION := 7 * 86_400_000

  datatype Consumed = Consumed(count: nat, retryAfter: int) | Unavailable

  function Entry(m: map<Key, Window>, key: Key): Option<Window> {
    if key in m then Some(m[key]) else None
  }

  function LiveCounters(m: map<Key, Window>, now: int): map<Key, Window> {
    map k | k in m && m[k].expires > now :: m[k]
  }

  function LiveResets(m: map<OperationId, int>, now: int): map<OperationId, int> {
    map k | k in m && m[k] > now :: m[k]
  }

  // Math.max(1, Math.ceil(ms / 1000)) for a positive number of milliseconds.
  function RetryAfter(ms: int): (s: int)
    requires ms > 0
    ensures s >= 1 && 1000 * (s - 1) < ms <= 1000 * s
  {
    (ms + 999) / 1000
  }

  lemma FewerEntries<K, V>(a: map<K, V>, b: map<K, V>)
    requires a.Keys <= b.Keys
    ensures |a| <= |b|
  {
    assert b.Keys == a.Keys + (b.Keys - a.Keys);
    assert |a.Keys| == |a| && |b.Keys| == |b|;
  }

  class InMemory {
    var counters: map<Key, Window>
    var resetOperations: map<OperationId, int>

    ghost predicate Valid()
      reads this
    {
      |counters| <= CAPACITY && |resetOperations| <= CAPACITY
    }

    constructor ()
      ensures Valid() && counters == map[] && resetOperations == map[]
    {
      counters, resetOperations := map[], map[];
    }

    method PurgeCounters(now: int)
      requires Valid()
      modifies this`counters
      ensures Valid() && counters == LiveCounters(old(counters), now)
      ensures forall k :: k in counters <==> k in old(counters) && old(counters)[k].expires > now
      ensures forall k :: k in counters ==> counters[k] == old(counters)[k]
    {
      var names := counters.Keys;
      while names != {}
        invariant names <= old(counters).Keys
        invariant counters == map k | k in old(counters) &&
                  (k in names || old(counters)[k].expires > now) :: old(counters)[k]
        decreases names
      {
        var name :| name in names;
        if counters[name].expires <= now {
          counters := counters - {name};
        }
        names := names - {name};
      }
      FewerEntries(counters, old(counters));
    }

    method PurgeResets(now: int)
      requires Valid()
      modifies this`resetOperations
      ensures Valid() && resetOperations == LiveResets(old(resetOperations), now)
      ensures forall id :: id in resetOperations <==> id in old(resetOperations) && old(resetOperations)[id] > now
      ensures forall id :: id in resetOperations ==> resetOperations[id] == old(resetOperations)[id]
    {
      var ids := resetOperations.Keys;
      while ids != {}
        invariant ids <= old(resetOperations).Keys
        invariant resetOperations == map k | k in old(resetOperations) &&
                  (k in ids || old(resetOperations)[k] > now) :: old(resetOperations)[k]
        decreases ids
      {
        var id :| id in ids;
        if resetOperations[id] <= now {
          resetOperations := resetOperations - {id};
        }
        ids := ids - {id};
      }
      FewerEntries(resetOperations, old(resetOperations));
    }

    method Consume(key: Key, seconds: nat, now: int) returns (r: Consumed)
      requires Valid() && seconds > 0
      modifies this`counters
      ensures Valid()
      ensures r.Unavailable? <==>
                && |LiveCounters(old(counters), now)| >= 10_000
                && !(key in old(counters) && old(counters)[key].expires > now)
      ensures forall k :: k in counters <==>
                (k in old(counters) && old(counters)[k].expires > now) || (k == key && r.Consumed?)
      ensures forall k :: k in counters && (k != key || r.Unavailable?) ==> counters[k] == old(counters)[k]
      ensures r.Consumed? ==>
                && counters[key] == (if key in old(counters) && old(counters)[key].expires > now
                                     then Window(old(counters)[key].count + 1, old(counters)[key].expires)
                                     else Window(1, now + seconds * 1000))
                && r.count == counters[key].count
                && 1000 * (r.retryAfter - 1) < counters[key].expires - now <= 1000 * r.retryAfter
      ensures r.Unavailable? ==> counters == LiveCounters(old(counters), now)
      ensures r.Consumed? ==>
                var v := Counted(Entry(old(counters), key), now, seconds * 1000);
                && counters == LiveCounters(old(counters), now)[key := v]
                && r.count == v.count && r.retryAfter == RetryAfter(v.expires - now)
    {
      PurgeCounters(now);
      if |counters| >= CAPACITY && key !in counters {
        return Unavailable;
      }
      var current := if key in counters then counters[key] else Window(0, now + seconds * 1000);
      current := current.(count := current.count + 1);
      ghost var before := counters;
      counters := counters[key := current];
      assert counters.Keys == before.Keys + {key};
      assert |counters| == |counters.Keys| && |before| == |before.Keys|;
      r := Consumed(current.count, RetryAfter(current.expires - now));
    }

    method Reset(key: Key)
      requires Valid()
      modifies this`counters
      ensures Valid() && counters == old(counters) - {key}
    {
      counters := counters - {key};
      FewerEntries(counters, old(counters));
    }

    // The counter goes at most once per operation within the retention.
    method ResetOnce(key: Key, id: OperationId, now: int) returns (ok: bool)
      requires Valid()
      modifies this
      ensures Valid()
      ensures id in old(resetOperations) && old(resetOperations)[id] > now ==> ok && counters == old(counters)
      ensures forall other :: other != id ==>
                && (other in resetOperations <==> other in old(resetOperations) && old(resetOperations)[other] > now)
                && (other in resetOperations ==> resetOperations[other] == old(resetOperations)[other])
      ensures ok ==> id in resetOperations
      ensures var live := LiveResets(old(resetOperations), now);
              && ok == (id in live || |live| < CAPACITY)
              && (id in live || !ok ==> counters == old(counters) && resetOperations == live)
              && (id !in live && ok ==>
                    counters == old(counters) - {key} && resetOperations == live[id := now + 604_800_000])
    {
      PurgeResets(now);
      if id in resetOperations {
        return true;
      }
      if |resetOperations| >= CAPACITY {
        return false;
      }
      FewerEntries(old(counters) - {key}, old(counters));
      counters := counters - {key};
      ghost var before := resetOperations;
      resetOperations := resetOperations[id := now + RESET_RETENTION];
      assert resetOperations.Keys == before.Keys + {id};
      assert |resetOperations| == |resetOperations.Keys| && |before| == |before.Keys|;
      ok := true;
    }
  }

  // The Redis server: keys with an expiry, and the scripts it runs atomically.
  class Server {
    var counters: map<Key, Window>
    var markers: map<OperationId, int>

    // INCR never leaves a zero.
    ghost predicate Valid()
      reads this
    {
      forall k :: k in counters ==> counters[k].count >= 1
    }

    constructor ()
      ensures Valid() && counters == map[] && markers == map[]
    {
      counters, markers := map[], map[];
    }

    // INCR, EXPIRE on the first count, TTL in whole seconds (rounded up here; the
    // caller raises it to at least one).
    method WindowScript(key: Key, seconds: nat, now: int) returns (n: nat, ttl: int)
      requires Valid() && seconds > 0
      modifies this`counters
      ensures Valid()
      ensures var v := Counted(Entry(old(counters), key), now, seconds * 1000);
              counters == old(counters)[key := v] && n == v.count && ttl == RetryAfter(v.expires - now)
      ensures key in counters && counters[key].count == n
      ensures 1000 * (ttl - 1) < counters[key].expires - now <= 1000 * ttl
      ensures counters[key] == (if key in old(counters) && old(counters)[key].expires > now
                                then Window(old(counters)[key].count + 1, old(counters)[key].expires)
                                else Window(1, now + seconds * 1000))
    {
      if key in counters && counters[key].expires <= now {
        counters := counters - {key};
      }
      n := if key in counters then counters[key].count + 1 else 1;
      var expires := if key in counters then counters[key].expires else now;
      if n == 1 {
        expires := now + seconds * 1000;
      }
      counters := counters[key := Window(n, expires)];
      ttl := RetryAfter(expires - now);
    }

    // EXISTS marker, or SET marker EX and DEL counter.
    method ResetOnceScript(key: Key, id: OperationId, now: int) returns (deleted: bool)
      requires Valid()
      modifies this
      ensures Valid()
      ensures deleted <==> !(id in old(markers) && old(markers)[id] > now)
      ensures !deleted ==> counters == old(counters) && markers == old(markers)
      ensures deleted ==> counters == old(counters) - {key} && markers == old(markers)[id := now + 604_800_000]
    {
      if id in markers && markers[id] > now {
        return false;
      }
      markers := markers[id := now + RESET_RETENTION];
      counters := counters - {key};
      deleted := true;
    }
  }
}
