/** The cache service object. */
module CacheService {
  import opened Options
  import opened MemoryCache
  import opened CacheStampede

  class MemoryCacheService {
    const defaultTtl: Option<int>
    var store: map<string, CacheRecord>
    var timers: map<string, nat>
    /** The runtime's queue of timeouts this service started and did not clear. */
    var pending: map<nat, Timeout>
    var nextTimer: nat
    var inflight: map<string, nat>
    /** The promises started so far and how far each has got. */
    var flights: seq<Flight>

    constructor (defaultTtl: Option<int>)
      ensures this.defaultTtl == defaultTtl && State() == EMPTY && Computations() == IDLE
    {
      this.defaultTtl := defaultTtl;
      store, timers, pending, nextTimer := map[], map[], map[], 0;
      inflight, flights := map[], [];
    }

    function Computations(): Flights
      reads this
    {
      Flights(inflight, flights)
    }

    function State(): Cache
      reads this
    {
      Cache(store, timers, pending, nextTimer)
    }

    method ClearTimerOf(key: string)
      modifies this`timers, this`pending
      ensures State() == ClearTimer(old(State()), key)
    {
      if key in timers {
        pending := pending - {timers[key]};
        timers := timers - {key};
      }
    }

    method EvictKey(key: string)
      modifies this`store, this`timers, this`pending, this`nextTimer
      ensures State() == Evict(old(State()), key)
    {
      store := store - {key};
      ClearTimerOf(key);
    }

    method Get(key: string, now: int) returns (value: Value)
      modifies this`store, this`timers, this`pending, this`nextTimer
      ensures State() == MemoryCache.Step(old(State()), Event(now, Op.Get(key)))
      ensures value == Answer(old(store), key, now)
    {
      if key !in store { return Null; }
      var record := store[key];
      if record.expiresAt.Some? && record.expiresAt.value <= now {
        EvictKey(key);
        return Null;
      }
      value := record.value;
    }

    method Has(key: string, now: int) returns (found: bool)
      modifies this`store, this`timers, this`pending, this`nextTimer
      ensures State() == MemoryCache.Step(old(State()), Event(now, Op.Get(key)))
      ensures found <==> Answer(old(store), key, now) != Null
    {
      var value := Get(key, now);
      found := value != Null;
    }

    method Set(key: string, value: Value, ttlSeconds: Option<int>, now: int)
      modifies this`store, this`timers, this`pending, this`nextTimer
      ensures var ttl := if ttlSeconds.Some? then ttlSeconds else defaultTtl;
        State() == MemoryCache.Step(old(State()), Event(now, Op.Set(key, value, ttl)))
    {
      var effectiveTtl := if ttlSeconds.Some? then ttlSeconds else defaultTtl;
      ClearTimerOf(key);
      var expiresAt := if effectiveTtl.Some? then Some(now + effectiveTtl.value * 1000) else None;
      store := store[key := CacheRecord(value, expiresAt)];
      if effectiveTtl.Some? {
        var timer := SetTimeout(key, effectiveTtl.value * 1000, now);
        timers := timers[key := timer];
      }
    }

    /** The runtime's setTimeout. */
    method SetTimeout(key: string, ms: int, now: int) returns (id: nat)
      modifies this`pending, this`nextTimer
      ensures id == old(nextTimer) && nextTimer == id + 1
      ensures pending == old(pending)[id := Timeout(key, now + (if 1 <= ms <= 2147483647 then ms else 1))]
    {
      id := nextTimer;
      pending := pending[id := Timeout(key, now + Delay(ms))];
      nextTimer := nextTimer + 1;
    }

    method Delete(key: string, now: int)
      modifies this`store, this`timers, this`pending, this`nextTimer
      ensures State() == MemoryCache.Step(old(State()), Event(now, Op.Delete(key)))
    {
      EvictKey(key);
    }

    /** Evicts the matching keys one by one while walking over the store. */
    method InvalidateByPrefix(prefix: string, now: int) returns (count: nat)
      modifies this`store, this`timers, this`pending, this`nextTimer
      ensures State() == MemoryCache.Step(old(State()), Event(now, Op.InvalidateByPrefix(prefix)))
      ensures count == |set key | key in old(store) && prefix <= key|
      ensures store == map key | key in old(store) && !(prefix <= key) :: old(store)[key]
    {
      count := 0;
      var keys := store.Keys;
      ghost var before, gone: set<string> := State(), {};
      assert Invalidate(before, gone) == before;
      while keys != {}
        invariant State() == Invalidate(before, gone) && count == |gone|
        invariant keys !! gone && keys <= before.store.Keys
        invariant forall key :: key in before.store && key !in keys ==> (key in gone <==> prefix <= key)
        invariant gone <= before.store.Keys
        decreases keys
      {
        var key :| key in keys;
        keys := keys - {key};
        if prefix <= key {
          OneMoreGone(before, gone, key);
          EvictKey(key);
          gone := gone + {key};
          count := count + 1;
        }
      }
      assert gone == Prefixed(before.store, prefix);
      assert gone == set key | key in before.store && prefix <= key;
    }

    /** The runtime runs a due timer's callback. */
    method TimerFires(id: nat, now: int)
      requires id in pending && pending[id].due <= now
      modifies this`store, this`timers, this`pending, this`nextTimer
      ensures State() == MemoryCache.Step(old(State()), Event(now, Op.TimerFires(id)))
    {
      var key := pending[id].key;
      pending := pending - {id};
      EvictKey(key);
    }

    /** getOrSet up to its first suspension: a hit ends the call. */
    method GetOrSet(key: string, now: int) returns (cached: Value)
      modifies this`store, this`timers, this`pending, this`nextTimer
      ensures State() == MemoryCache.Step(old(State()), Event(now, Op.Get(key)))
      ensures cached == Answer(old(store), key, now)
    {
      cached := Get(key, now);
    }

    /** getOrSet resumed after a miss: join the computation in flight, or start the factory. */
    method GetOrSetAfterMiss(key: string) returns (flight: nat, started: bool)
      modifies this`inflight, this`flights
      ensures Computations() == CacheStampede.Step(old(Computations()), Join(key))
      ensures flight == Joined(old(Computations()), key) && started == (key !in old(inflight))
      ensures inflight == old(inflight)[key := flight]
      ensures if started then flight == |old(flights)| && flights == old(flights) + [Flight(key, Computing)]
              else flight == old(inflight)[key] && flights == old(flights)
    {
      if key in inflight { return inflight[key], false; }
      flight, started := |flights|, true;
      flights := flights + [Flight(key, Computing)];
      inflight := inflight[key := flight];
    }

    /** The factory's value arrives and is stored before any caller sees it. */
    method FactoryResolved(flight: nat, value: Value, ttlSeconds: Option<int>, now: int)
      requires flight < |flights| && flights[flight].phase == Computing
      modifies this
      ensures Computations() == CacheStampede.Step(old(Computations()), Resolve(flight))
      ensures State() == MemoryCache.Step(old(State()),
        Event(now, Op.Set(old(flights[flight].key), value, if ttlSeconds.Some? then ttlSeconds else defaultTtl)))
      ensures flights == old(flights)[flight := Flight(old(flights)[flight].key, Resolved)]
      ensures inflight == old(inflight)
    {
      Set(flights[flight].key, value, ttlSeconds, now);
      flights := flights[flight := Flight(flights[flight].key, Resolved)];
    }

    /** A rejected factory stores nothing. */
    method FactoryRejected(flight: nat)
      requires flight < |flights| && flights[flight].phase == Computing
      modifies this`flights
      ensures Computations() == CacheStampede.Step(old(Computations()), Reject(flight))
      ensures flights == old(flights)[flight := Flight(old(flights)[flight].key, Rejected)]
    {
      flights := flights[flight := Flight(flights[flight].key, Rejected)];
    }

    /** The finally: whatever the outcome, the next miss may compute again. */
    method FactorySettled(flight: nat)
      requires flight < |flights| && (flights[flight].phase == Resolved || flights[flight].phase == Rejected)
      modifies this`inflight, this`flights
      ensures Computations() == CacheStampede.Step(old(Computations()), Settle(flight))
      ensures inflight == old(inflight) - {old(flights)[flight].key}
      ensures flights == old(flights)[flight := Flight(old(flights)[flight].key, Settled)]
    {
      inflight := inflight - {flights[flight].key};
      flights := flights[flight := Flight(flights[flight].key, Settled)];
    }
  }
}
