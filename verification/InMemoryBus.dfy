/** The in-memory event bus and its slot keys. */
module InMemoryBus {
  import opened Options
  import opened SlotKeys
  import opened KeysetPaging

  function TickEvent(id: string, kind: string, slot: int, pool: string, direction: string): BusEvent {
    BusEvent(id, kind, slot, Some(pool), Some(direction), None, None, false, Some(SlotKeyFor(kind, slot)))
  }

  /** The type has a scheduled event for this slot. */
  predicate HasTick(log: seq<BusEvent>, kind: string, slot: int) {
    exists k :: 0 <= k < |log| && log[k].kind == kind && log[k].scheduleSlot == Some(SlotKeyFor(kind, slot))
  }

  /** The keys are those of the log's scheduled events, each the key of its own type and instant. */
  ghost predicate Mirrors(slots: set<string>, log: seq<BusEvent>) {
    && (forall key :: key in slots <==> KeyInLog(log, key))
    && (forall k :: 0 <= k < |log| && log[k].scheduleSlot.Some? ==>
          log[k].scheduleSlot == Some(SlotKeyFor(log[k].kind, log[k].occurredAt)))
  }

  ghost predicate KeyInLog(log: seq<BusEvent>, key: string) {
    exists k :: 0 <= k < |log| && log[k].scheduleSlot == Some(key)
  }

  lemma MirrorsMore(slots: set<string>, log: seq<BusEvent>, e: BusEvent)
    requires Mirrors(slots, log) && e.scheduleSlot == Some(SlotKeyFor(e.kind, e.occurredAt))
    ensures Mirrors(slots + {e.scheduleSlot.value}, log + [e])
  {
    var after := log + [e];
    forall key ensures KeyInLog(after, key) <==> KeyInLog(log, key) || key == e.scheduleSlot.value {
      if KeyInLog(log, key) {
        var k :| 0 <= k < |log| && log[k].scheduleSlot == Some(key);
        assert after[k] == log[k];
      }
      assert after[|log|] == e;
    }
  }

  /** How a publish ends: recorded, refused by the tier check, or recorded with a subscriber's throw. */
  datatype Outcome = Published | Refused | SubscriberThrew(handler: nat)

  /** No pool list, or an empty one, lets every event through. */
  predicate ShouldDispatch(pools: seq<string>, e: BusEvent) {
    pools == [] || (e.pool.Some? && e.pool.value in pools)
  }

  /** The first of the handlers that throws on the event. */
  function FirstThrow(throws: (nat, BusEvent) -> bool, handlers: seq<nat>, e: BusEvent): (r: Option<nat>)
    ensures r.None? <==> forall k :: 0 <= k < |handlers| ==> !throws(handlers[k], e)
    ensures r.Some? ==> exists k :: 0 <= k < |handlers| && handlers[k] == r.value && throws(r.value, e)
                                 && forall j :: 0 <= j < k ==> !throws(handlers[j], e)
  {
    if handlers == [] then None
    else
      var n := |handlers| - 1;
      var earlier := FirstThrow(throws, handlers[..n], e);
      assert forall k :: 0 <= k < n ==> handlers[k] == handlers[..n][k];
      if earlier.Some? then earlier else if throws(handlers[n], e) then Some(handlers[n]) else None
  }

  function Calls(handlers: seq<nat>, e: BusEvent): seq<(nat, BusEvent)> {
    seq(|handlers|, k requires 0 <= k < |handlers| => (handlers[k], e))
  }

  class MemoryEventBus {
    const pools: seq<string>
    /** Whether a subscriber's handler throws on an event. */
    const throws: (nat, BusEvent) -> bool
    var publishedEvents: seq<BusEvent>
    var materialisedSlots: set<string>
    /** Subscribers by event type, in subscription order. */
    var handlers: map<string, seq<nat>>
    /** Handler calls made so far. */
    var calls: seq<(nat, BusEvent)>

    constructor (pools: seq<string>, throws: (nat, BusEvent) -> bool)
      ensures this.pools == pools && this.throws == throws
      ensures publishedEvents == [] && materialisedSlots == {} && handlers == map[] && calls == []
    {
      this.pools, this.throws := pools, throws;
      publishedEvents, materialisedSlots, handlers, calls := [], {}, map[], [];
    }

    /** The set mirrors the log: nobody but the materialiser publishes slot keys, and the log has not
        been cleared since. */
    ghost predicate Mirrored()
      reads this
    {
      Mirrors(materialisedSlots, publishedEvents)
    }

    /** Who is called for an event. */
    function Audience(e: BusEvent): seq<nat>
      reads this
    {
      if ShouldDispatch(pools, e) && e.kind in handlers then handlers[e.kind] else []
    }

    method Subscribe(kind: string, handler: nat)
      modifies this`handlers
      ensures handlers.Keys == old(handlers.Keys) + {kind}
      ensures forall other :: other in old(handlers) && other != kind ==> handlers[other] == old(handlers)[other]
      ensures handlers[kind] ==
        var earlier := if kind in old(handlers) then old(handlers)[kind] else [];
        if handler in earlier then earlier else earlier + [handler]
    {
      var earlier := if kind in handlers then handlers[kind] else [];
      handlers := handlers[kind := if handler in earlier then earlier else earlier + [handler]];
    }

    /** Calls every handler whether or not earlier ones threw; reports the first throw. */
    method Dispatch(e: BusEvent, audience: seq<nat>) returns (firstError: Option<nat>)
      modifies this`calls
      ensures calls == old(calls) + Calls(audience, e)
      ensures firstError == FirstThrow(throws, audience, e)
    {
      firstError := None;
      for k := 0 to |audience|
        invariant calls == old(calls) + Calls(audience[..k], e)
        invariant firstError == FirstThrow(throws, audience[..k], e)
      {
        assert audience[..k + 1][..k] == audience[..k];
        assert Calls(audience[..k + 1], e) == Calls(audience[..k], e) + [(audience[k], e)];
        calls := calls + [(audience[k], e)];
        if throws(audience[k], e) && firstError.None? { firstError := Some(audience[k]); }
      }
      assert audience[..|audience|] == audience;
    }

    /** The event stays in the log even if a subscriber throws. */
    method Publish(e: BusEvent) returns (r: Outcome)
      modifies this`publishedEvents, this`calls
      ensures r == Refused <==> e.audit && (e.pool.Some? || e.direction.Some?)
      ensures publishedEvents == if r == Refused then old(publishedEvents) else old(publishedEvents) + [e]
      ensures calls == if r == Refused then old(calls) else old(calls) + Calls(Audience(e), e)
      ensures r != Refused ==>
        r == match FirstThrow(throws, Audience(e), e) case None => Published case Some(h) => SubscriberThrew(h)
      ensures r != Refused && e.kind in handlers
              && (pools == [] || exists k :: 0 <= k < |pools| && e.pool == Some(pools[k])) ==>
        |calls| == |old(calls)| + |handlers[e.kind]|
        && forall k :: 0 <= k < |handlers[e.kind]| ==> calls[|old(calls)| + k] == (handlers[e.kind][k], e)
      ensures e.kind !in handlers || !(pools == [] || exists k :: 0 <= k < |pools| && e.pool == Some(pools[k])) ==>
        calls == old(calls)
    {
      assert ShouldDispatch(pools, e) <==> pools == [] || exists k :: 0 <= k < |pools| && e.pool == Some(pools[k]) by {
        if pools != [] && ShouldDispatch(pools, e) { var k :| 0 <= k < |pools| && pools[k] == e.pool.value; }
      }
      if e.audit && (e.pool.Some? || e.direction.Some?) { return Refused; }
      publishedEvents := publishedEvents + [e];
      r := Published;
      if ShouldDispatch(pools, e) && e.kind in handlers {
        var firstError := Dispatch(e, handlers[e.kind]);
        if firstError.Some? { r := SubscriberThrew(firstError.value); }
      }
    }

    method FindById(id: string) returns (r: Option<BusEvent>)
      ensures r.Some? ==> r.value in publishedEvents && r.value.id == id
      ensures r.None? ==> forall k :: 0 <= k < |publishedEvents| ==> publishedEvents[k].id != id
    {
      for k := 0 to |publishedEvents|
        invariant forall j :: 0 <= j < k ==> publishedEvents[j].id != id
      {
        if publishedEvents[k].id == id { return Some(publishedEvents[k]); }
      }
      r := None;
    }

    /** Whether the tick is created is decided by the key set alone; see SetAgreesWithIndex. A throwing
        subscriber makes the call throw, with the tick recorded. */
    method MaterializeScheduledEvent(id: string, kind: string, slot: int, pool: string, direction: string)
      returns (created: Result<bool, nat>)
      modifies this`publishedEvents, this`materialisedSlots, this`calls
      ensures created == Ok(false) <==> SlotKeyFor(kind, slot) in old(materialisedSlots)
      ensures materialisedSlots == old(materialisedSlots) + {SlotKeyFor(kind, slot)}
      ensures publishedEvents ==
        if created == Ok(false) then old(publishedEvents)
        else old(publishedEvents) + [TickEvent(id, kind, slot, pool, direction)]
      ensures created != Ok(false) ==>
        |publishedEvents| == |old(publishedEvents)| + 1
        && var e := publishedEvents[|old(publishedEvents)|];
           && e.id == id && e.kind == kind && e.occurredAt == slot && !e.audit
           && e.pool == Some(pool) && e.direction == Some(direction) && e.rootRunId.None? && e.tenantId.None?
           && e.scheduleSlot == Some("@schedule/" + kind + "/" + PrintInt(slot))
      ensures created != Ok(false) ==>
        var e := TickEvent(id, kind, slot, pool, direction);
        && calls == old(calls) + Calls(Audience(e), e)
        && created == match FirstThrow(throws, Audience(e), e) case None => Ok(true) case Some(h) => Err(h)
      ensures created == Ok(false) ==> calls == old(calls)
      ensures old(Mirrored()) ==> Mirrored()
      ensures old(Mirrored()) ==> (created == Ok(false) <==> HasTick(old(publishedEvents), kind, slot))
    {
      var key := SlotKeyFor(kind, slot);
      var e := TickEvent(id, kind, slot, pool, direction);
      if Mirrored() {
        SetAgreesWithIndex(publishedEvents, materialisedSlots, kind, slot);
        MirrorsMore(materialisedSlots, publishedEvents, e);
      }
      if key in materialisedSlots { return Ok(false); }
      materialisedSlots := materialisedSlots + {key};
      var r := Publish(e);
      created := if r.SubscriberThrew? then Err(r.handler) else Ok(true);
    }

    method LastScheduledSlotMs(kind: string) returns (best: Option<int>)
      ensures best.None? <==> forall k :: 0 <= k < |publishedEvents| ==> !Scheduled(publishedEvents[k], kind)
      ensures best.Some? ==>
        && (exists k :: 0 <= k < |publishedEvents| && Scheduled(publishedEvents[k], kind) &&
              publishedEvents[k].occurredAt == best.value)
        && (forall k :: 0 <= k < |publishedEvents| && Scheduled(publishedEvents[k], kind) ==>
              publishedEvents[k].occurredAt <= best.value)
      ensures best.None? ==> forall k :: 0 <= k < |publishedEvents| ==>
        publishedEvents[k].kind != kind || publishedEvents[k].scheduleSlot.None?
      ensures best.Some? ==> forall k :: 0 <= k < |publishedEvents| ==>
        publishedEvents[k].kind != kind || publishedEvents[k].scheduleSlot.None?
        || publishedEvents[k].occurredAt <= best.value
    {
      best := None;
      for i := 0 to |publishedEvents|
        invariant best.None? <==> forall k :: 0 <= k < i ==> !Scheduled(publishedEvents[k], kind)
        invariant best.Some? ==>
          && (exists k :: 0 <= k < i && Scheduled(publishedEvents[k], kind) &&
                publishedEvents[k].occurredAt == best.value)
          && (forall k :: 0 <= k < i && Scheduled(publishedEvents[k], kind) ==>
                publishedEvents[k].occurredAt <= best.value)
      {
        if Scheduled(publishedEvents[i], kind) {
          if best.None? || publishedEvents[i].occurredAt > best.value { best := Some(publishedEvents[i].occurredAt); }
        }
      }
    }

    method List(q: Query, cursor: Option<Keyset>, limit: Option<real>) returns (page: Page)
      ensures page == ListEvents(publishedEvents, q, cursor, limit)
    {
      page := ListEvents(publishedEvents, q, cursor, limit);
    }

    /** Empties the log and the subscriptions but keeps the slot set, so a slot materialised before is
        not materialised again. */
    method Clear()
      modifies this`publishedEvents, this`handlers
      ensures publishedEvents == [] && handlers == map[]
      ensures Mirrored() <==> old(materialisedSlots) == {}
    {
      publishedEvents, handlers := [], map[];
      assert forall key :: !KeyInLog(publishedEvents, key);
      assert materialisedSlots != {} ==> exists key :: key in materialisedSlots;
    }
  }

  predicate Scheduled(e: BusEvent, kind: string) {
    e.kind == kind && e.scheduleSlot.Some?
  }

  /** The set keyed by slot key alone and a unique index on (type, slot key) answer alike. */
  lemma SetAgreesWithIndex(log: seq<BusEvent>, slots: set<string>, kind: string, slot: int)
    requires Mirrors(slots, log)
    ensures SlotKeyFor(kind, slot) in slots <==> HasTick(log, kind, slot)
  {
    var key := SlotKeyFor(kind, slot);
    if key in slots {
      var k :| 0 <= k < |log| && log[k].scheduleSlot == Some(key);
      SlotKeyInjective(log[k].kind, log[k].occurredAt, kind, slot);
    }
    if HasTick(log, kind, slot) {
      var k :| 0 <= k < |log| && log[k].kind == kind && log[k].scheduleSlot == Some(key);
      assert KeyInLog(log, key);
    }
  }
}
