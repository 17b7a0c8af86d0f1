/** The in-memory TTL cache and its timer queue. */
module MemoryCache {
  import opened Options

  /** A cached value; everything that is not null is opaque here. */
  datatype Value = Null | Val(content: string)

  datatype CacheRecord = CacheRecord(value: Value, expiresAt: Option<int>)

  /** A scheduled eviction of `key`, not to run before `due`. */
  datatype Timeout = Timeout(key: string, due: int)

  datatype Cache = Cache(
    store: map<string, CacheRecord>,
    timers: map<string, nat>,
    pending: map<nat, Timeout>,
    nextTimer: nat)

  const EMPTY := Cache(map[], map[], map[], 0)

  /** A setTimeout delay outside 1 .. 2^31 - 1 ms is replaced by 1 ms. */
  const MAX_DELAY_MS := 0x7fff_ffff

  function Delay(ms: int): int {
    if 1 <= ms <= MAX_DELAY_MS then ms else 1
  }

  predicate Expired(r: CacheRecord, now: int) {
    r.expiresAt.Some? && r.expiresAt.value <= now
  }

  function ClearTimer(c: Cache, key: string): Cache {
    if key in c.timers then c.(timers := c.timers - {key}, pending := c.pending - {c.timers[key]}) else c
  }

  function Evict(c: Cache, key: string): Cache {
    ClearTimer(c.(store := c.store - {key}), key)
  }

  function Write(c: Cache, key: string, value: Value, ttlSeconds: Option<int>, now: int): Cache {
    var cleared := ClearTimer(c, key);
    match ttlSeconds
    case None => cleared.(store := cleared.store[key := CacheRecord(value, None)])
    case Some(ttl) =>
      Cache(cleared.store[key := CacheRecord(value, Some(now + ttl * 1000))],
            cleared.timers[key := cleared.nextTimer],
            cleared.pending[cleared.nextTimer := Timeout(key, now + Delay(ttl * 1000))],
            cleared.nextTimer + 1)
  }

  /** What a read at `now` returns. */
  function Visible(store: map<string, CacheRecord>, key: string, now: int): Value {
    if key in store && !Expired(store[key], now) then store[key].value else Null
  }

  /** A read drops the record it finds expired. */
  function Read(c: Cache, key: string, now: int): Cache {
    if key in c.store && Expired(c.store[key], now) then Evict(c, key) else c
  }

  function Prefixed(store: map<string, CacheRecord>, prefix: string): set<string> {
    set key | key in store && prefix <= key
  }

  function TimersOf(c: Cache, keys: set<string>): set<nat> {
    set key | key in keys && key in c.timers :: c.timers[key]
  }

  function Invalidate(c: Cache, keys: set<string>): Cache {
    c.(store := c.store - keys, timers := c.timers - keys, pending := c.pending - TimersOf(c, keys))
  }

  function Fire(c: Cache, id: nat): Cache
    requires id in c.pending
  {
    Evict(c.(pending := c.pending - {id}), c.pending[id].key)
  }

  // ---------------------------------------------------------------- timers belong to records

  ghost predicate TimersOk(c: Cache) {
    && (forall key :: key in c.timers <==> key in c.store && c.store[key].expiresAt.Some?)
    && (forall key :: key in c.timers ==> c.timers[key] in c.pending && c.pending[c.timers[key]].key == key)
    && (forall id :: id in c.pending ==>
          id < c.nextTimer && c.pending[id].key in c.timers && c.timers[c.pending[id].key] == id)
  }

  /** No timer is due before its record expires. */
  ghost predicate NeverEarly(c: Cache) {
    forall id :: id in c.pending && c.pending[id].key in c.store && c.store[c.pending[id].key].expiresAt.Some? ==>
      c.pending[id].due >= c.store[c.pending[id].key].expiresAt.value
  }

  lemma EvictKeeps(c: Cache, key: string)
    requires TimersOk(c)
    ensures TimersOk(Evict(c, key)) && (NeverEarly(c) ==> NeverEarly(Evict(c, key)))
  {
  }

  lemma WriteKeeps(c: Cache, key: string, value: Value, ttl: Option<int>, now: int)
    requires TimersOk(c)
    ensures TimersOk(Write(c, key, value, ttl, now))
    ensures NeverEarly(c) && (ttl.Some? ==> ttl.value * 1000 <= MAX_DELAY_MS) ==>
      NeverEarly(Write(c, key, value, ttl, now))
  {
    if NeverEarly(c) && (ttl.Some? ==> ttl.value * 1000 <= MAX_DELAY_MS) {
      WriteNeverEarly(c, key, value, ttl, now);
    }
  }

  lemma WriteNeverEarly(c: Cache, key: string, value: Value, ttl: Option<int>, now: int)
    requires TimersOk(c) && NeverEarly(c) && (ttl.Some? ==> ttl.value * 1000 <= MAX_DELAY_MS)
    ensures NeverEarly(Write(c, key, value, ttl, now))
  {
  }

  lemma InvalidateKeeps(c: Cache, keys: set<string>)
    requires TimersOk(c)
    ensures TimersOk(Invalidate(c, keys)) && (NeverEarly(c) ==> NeverEarly(Invalidate(c, keys)))
  {
  }

  lemma FireKeeps(c: Cache, id: nat)
    requires TimersOk(c) && id in c.pending
    ensures TimersOk(Fire(c, id)) && (NeverEarly(c) ==> NeverEarly(Fire(c, id)))
  {
    assert Fire(c, id) == Evict(c, c.pending[id].key);
    EvictKeeps(c, c.pending[id].key);
  }

  // ---------------------------------------------------------------- runs against a plain map

  datatype Op =
    | Set(key: string, value: Value, ttl: Option<int>)
    | Get(key: string)
    | Delete(key: string)
    | InvalidateByPrefix(prefix: string)
    | TimerFires(id: nat)

  /** An operation at an instant; a timer may fire any time from when it is due. */
  datatype Event = Event(at: int, op: Op)

  predicate Enabled(c: Cache, e: Event) {
    e.op.TimerFires? ==> e.op.id in c.pending && c.pending[e.op.id].due <= e.at
  }

  function Step(c: Cache, e: Event): Cache {
    match e.op
    case Set(key, value, ttl) => Write(c, key, value, ttl, e.at)
    case Get(key) => Read(c, key, e.at)
    case Delete(key) => Evict(c, key)
    case InvalidateByPrefix(prefix) => Invalidate(c, Prefixed(c.store, prefix))
    case TimerFires(id) => if Enabled(c, e) then Fire(c, id) else c
  }

  /** The specification: a map of values and expiry times without timers or evictions. */
  function PlainStep(m: map<string, CacheRecord>, e: Event): map<string, CacheRecord> {
    match e.op
    case Set(key, value, ttl) => m[key := CacheRecord(value, if ttl.Some? then Some(e.at + ttl.value * 1000) else None)]
    case Delete(key) => m - {key}
    case InvalidateByPrefix(prefix) => m - Prefixed(m, prefix)
    case _ => m
  }

  function Run(events: seq<Event>): Cache {
    if events == [] then EMPTY else Step(Run(events[..|events| - 1]), events[|events| - 1])
  }

  function Plain(events: seq<Event>): map<string, CacheRecord> {
    if events == [] then map[] else PlainStep(Plain(events[..|events| - 1]), events[|events| - 1])
  }

  predicate Chronological(events: seq<Event>) {
    forall j, k :: 0 <= j < k < |events| ==> events[j].at <= events[k].at
  }

  predicate EndsBy(events: seq<Event>, now: int) {
    forall k :: 0 <= k < |events| ==> events[k].at <= now
  }

  /** Every TTL used fits a timer. */
  predicate TtlsFit(events: seq<Event>) {
    forall k :: 0 <= k < |events| ==>
      (events[k].op.Set? && events[k].op.ttl.Some? ==> events[k].op.ttl.value * 1000 <= MAX_DELAY_MS)
  }

  lemma StepKeeps(c: Cache, e: Event)
    requires TimersOk(c)
    ensures TimersOk(Step(c, e))
    ensures NeverEarly(c) && TtlsFit([e]) ==> NeverEarly(Step(c, e))
  {
    match e.op
    case Set(key, value, ttl) => WriteKeeps(c, key, value, ttl, e.at); assert [e][0] == e;
    case Get(key) => EvictKeeps(c, key);
    case Delete(key) => EvictKeeps(c, key);
    case InvalidateByPrefix(prefix) => InvalidateKeeps(c, Prefixed(c.store, prefix));
    case TimerFires(id) => if Enabled(c, e) { FireKeeps(c, id); }
  }

  /** In every reachable state the live timers and the records that can expire are in bijection, so
      a timer never evicts a value other than the one it was started for. */
  lemma {:induction false} AlwaysTimersOk(events: seq<Event>)
    ensures TimersOk(Run(events))
    ensures TtlsFit(events) ==> NeverEarly(Run(events))
  {
    if events != [] {
      var n := |events| - 1;
      AlwaysTimersOk(events[..n]);
      StepKeeps(Run(events[..n]), events[n]);
    }
  }

  /** The two stores cannot be told apart by a read at `from` or later. */
  ghost predicate Agree(store: map<string, CacheRecord>, plain: map<string, CacheRecord>, from: int) {
    forall key, t :: t >= from ==> Visible(store, key, t) == Visible(plain, key, t)
  }

  lemma PrefixAgrees(c: Cache, m: map<string, CacheRecord>, prefix: string, from: int)
    requires Agree(c.store, m, from)
    ensures Agree(Invalidate(c, Prefixed(c.store, prefix)).store, m - Prefixed(m, prefix), from)
  {
    forall key, t | t >= from
      ensures Visible(Invalidate(c, Prefixed(c.store, prefix)).store, key, t) ==
        Visible(m - Prefixed(m, prefix), key, t)
    {
      assert Visible(c.store, key, t) == Visible(m, key, t);
    }
  }

  lemma EvictionUnseen(c: Cache, m: map<string, CacheRecord>, key: string, from: int, at: int)
    requires Agree(c.store, m, from) && from <= at && (key in c.store ==> Expired(c.store[key], at))
    ensures Agree(Evict(c, key).store, m, at)
  {
    forall other, t | t >= at ensures Visible(Evict(c, key).store, other, t) == Visible(m, other, t) {
      assert Visible(c.store, other, t) == Visible(m, other, t);
    }
  }

  lemma StepAgrees(c: Cache, m: map<string, CacheRecord>, e: Event, from: int)
    requires TimersOk(c) && NeverEarly(c) && Agree(c.store, m, from) && from <= e.at
    ensures Agree(Step(c, e).store, PlainStep(m, e), e.at)
  {
    match e.op
    case Set(key, value, ttl) =>
      forall other, t | t >= e.at ensures Visible(Step(c, e).store, other, t) == Visible(PlainStep(m, e), other, t) {
        assert Visible(c.store, other, t) == Visible(m, other, t);
      }
    case Get(key) => if key in c.store && Expired(c.store[key], e.at) { EvictionUnseen(c, m, key, from, e.at); }
    case Delete(key) =>
      forall other, t | t >= e.at ensures Visible(Step(c, e).store, other, t) == Visible(PlainStep(m, e), other, t) {
        assert Visible(c.store, other, t) == Visible(m, other, t);
      }
    case InvalidateByPrefix(prefix) => PrefixAgrees(c, m, prefix, from);
    case TimerFires(id) =>
      if Enabled(c, e) {
        EvictionUnseen(c, m, c.pending[id].key, from, e.at);
      }
  }

  /** As long as every TTL fits a timer, reads agree with the plain map, whatever the interleaving
      and however late timers fire. */
  lemma {:induction false} AgreesWithPlainMap(events: seq<Event>, now: int)
    requires Chronological(events) && TtlsFit(events) && EndsBy(events, now)
    ensures Agree(Run(events).store, Plain(events), now)
  {
    if events != [] {
      var n := |events| - 1;
      AgreesWithPlainMap(events[..n], events[n].at);
      AlwaysTimersOk(events[..n]);
      StepAgrees(Run(events[..n]), Plain(events[..n]), events[n], events[n].at);
    }
  }

  /** Every timed write of the run uses this TTL. */
  predicate OnlyTtl(events: seq<Event>, ttl: int) {
    forall k :: 0 <= k < |events| ==> (events[k].op.Set? && events[k].op.ttl.Some? ==> events[k].op.ttl.value == ttl)
  }

  ghost predicate AlwaysAgrees(ttl: int) {
    forall events: seq<Event>, now: int :: Chronological(events) && OnlyTtl(events, ttl) && EndsBy(events, now) ==>
      Agree(Run(events).store, Plain(events), now)
  }

  /** With a longer TTL the timer fires after a millisecond and takes a live value with it. */
  lemma LongTtlEvictsEarly(ttl: int)
    requires ttl * 1000 > MAX_DELAY_MS
    ensures var events := [Event(0, Set("k", Val("v"), Some(ttl))), Event(1, TimerFires(0))];
      Visible(Run(events).store, "k", 1) == Null && Visible(Plain(events), "k", 1) == Val("v")
  {
    var events := [Event(0, Set("k", Val("v"), Some(ttl))), Event(1, TimerFires(0))];
    assert events[..1] == [events[0]] && events[..1][..0] == [];
    assert Run(events[..1]) == Step(EMPTY, events[0]);
    assert Plain(events[..1]) == PlainStep(map[], events[0]);
  }

  /** The cache is a plain map with expiry exactly for TTLs of at most 2^31 - 1 ms. */
  lemma AgreesExactly(ttl: int)
    ensures AlwaysAgrees(ttl) <==> ttl * 1000 <= MAX_DELAY_MS
  {
    if ttl * 1000 <= MAX_DELAY_MS {
      forall events: seq<Event>, now: int |
          Chronological(events) && OnlyTtl(events, ttl) && EndsBy(events, now)
        ensures Agree(Run(events).store, Plain(events), now)
      {
        AgreesWithPlainMap(events, now);
      }
    } else {
      LongTtlEvictsEarly(ttl);
      var events := [Event(0, Set("k", Val("v"), Some(ttl))), Event(1, TimerFires(0))];
      assert Chronological(events) && OnlyTtl(events, ttl);
      assert !Agree(Run(events).store, Plain(events), 1);
    }
  }

  /** Evicting a batch one key at a time comes to the same. */
  lemma OneMoreGone(c: Cache, gone: set<string>, key: string)
    ensures Evict(Invalidate(c, gone), key) == Invalidate(c, gone + {key})
  {
    var a, b := Evict(Invalidate(c, gone), key), Invalidate(c, gone + {key});
    assert TimersOf(c, gone + {key}) == TimersOf(c, gone) + if key in c.timers then {c.timers[key]} else {};
    assert a.store == b.store && a.timers == b.timers && a.pending == b.pending;
  }

  // ---------------------------------------------------------------- reads, spelled out

  /** What a read at `now` answers from these records: a record lives until it expires. */
  function Answer(store: map<string, CacheRecord>, key: string, now: int): Value {
    if key in store && (store[key].expiresAt == None || now < store[key].expiresAt.value) then store[key].value
    else Null
  }

  /** The operation decides what the key holds. */
  predicate Touches(e: Event, key: string) {
    match e.op
    case Set(k, _, _) => k == key
    case Delete(k) => k == key
    case InvalidateByPrefix(prefix) => |prefix| <= |key| && key[..|prefix|] == prefix
    case _ => false
  }

  /** What a read at `now` is due after the operation: a value set lives for its TTL, forever without one. */
  function Due(e: Event, now: int): Value {
    match e.op
    case Set(_, v, ttl) => if ttl == None || now < e.at + ttl.value * 1000 then v else Null
    case _ => Null
  }

  lemma PlainTouched(m: map<string, CacheRecord>, e: Event, key: string, now: int)
    ensures Answer(PlainStep(m, e), key, now) == if Touches(e, key) then Due(e, now) else Answer(m, key, now)
  {
    if e.op.InvalidateByPrefix? {
      var prefix := e.op.prefix;
      assert prefix <= key <==> |prefix| <= |key| && key[..|prefix|] == prefix;
    }
  }

  lemma {:induction false} PlainLast(events: seq<Event>, key: string, now: int, k: nat)
    requires k < |events| && Touches(events[k], key) && forall j :: k < j < |events| ==> !Touches(events[j], key)
    ensures Answer(Plain(events), key, now) == Due(events[k], now)
    decreases |events|
  {
    var n := |events| - 1;
    PlainTouched(Plain(events[..n]), events[n], key, now);
    if k < n { PlainLast(events[..n], key, now, k); }
  }

  lemma {:induction false} PlainUntouched(events: seq<Event>, key: string, now: int)
    requires forall j :: 0 <= j < |events| ==> !Touches(events[j], key)
    ensures Answer(Plain(events), key, now) == Null
  {
    if events != [] {
      var n := |events| - 1;
      PlainTouched(Plain(events[..n]), events[n], key, now);
      PlainUntouched(events[..n], key, now);
    }
  }

  lemma StoresAnswerAlike(events: seq<Event>, key: string, now: int)
    requires Chronological(events) && TtlsFit(events) && EndsBy(events, now)
    ensures Answer(Run(events).store, key, now) == Answer(Plain(events), key, now)
  {
    AgreesWithPlainMap(events, now);
    assert Visible(Run(events).store, key, now) == Visible(Plain(events), key, now);
  }

  /** A read answers what the last set, delete or matching invalidation of the key left: the value set,
      until its TTL is over, and null otherwise. */
  lemma ReadsLastWrite(events: seq<Event>, key: string, now: int, k: nat)
    requires Chronological(events) && TtlsFit(events) && EndsBy(events, now)
    requires k < |events| && Touches(events[k], key) && forall j :: k < j < |events| ==> !Touches(events[j], key)
    ensures var e := events[k];
      Answer(Run(events).store, key, now) ==
        if e.op.Set? && (e.op.ttl == None || now < e.at + e.op.ttl.value * 1000) then e.op.value else Null
  {
    StoresAnswerAlike(events, key, now);
    PlainLast(events, key, now, k);
  }

  lemma ReadsNothingUnwritten(events: seq<Event>, key: string, now: int)
    requires Chronological(events) && TtlsFit(events) && EndsBy(events, now)
    requires forall j :: 0 <= j < |events| ==> !Touches(events[j], key)
    ensures Answer(Run(events).store, key, now) == Null
  {
    StoresAnswerAlike(events, key, now);
    PlainUntouched(events, key, now);
  }

  /** A set starts one timer for its key, due when the value expires if the runtime can wait that long and
      after a millisecond if not; without a TTL it leaves none. */
  lemma SetStartsTimer(c: Cache, key: string, value: Value, ttl: Option<int>, now: int)
    requires TimersOk(c)
    ensures var after := Step(c, Event(now, Set(key, value, ttl)));
      if ttl == None then key !in after.timers && forall id :: id in after.pending ==> after.pending[id].key != key
      else
        && key in after.timers && after.timers[key] == c.nextTimer && c.nextTimer in after.pending
        && after.pending[c.nextTimer] ==
             Timeout(key, now + (if 1 <= ttl.value * 1000 <= 2147483647 then ttl.value * 1000 else 1))
  {
  }
}
