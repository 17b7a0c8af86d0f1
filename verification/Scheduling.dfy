/** The scheduler object: a boot pass and tick passes against an event bus. */
module Scheduling {
  import opened Options
  import opened SlotMath
  import opened Backfill
  import opened Cadence
  import opened KeysetPaging
  import opened InMemoryBus
  import opened SchedulePasses

  class EventScheduler {
    const bus: MemoryEventBus
    const schedules: seq<ScheduledEvent>
    const tickIntervalMs: int
    /** The source of random event ids. */
    const uuid: nat -> string
    var drawn: nat
    var timer: Option<int>

    constructor (bus: MemoryEventBus, schedules: seq<ScheduledEvent>, uuid: nat -> string, tickIntervalMs: Option<int>)
      ensures this.bus == bus && this.schedules == schedules && timer.None?
      ensures this.tickIntervalMs == TickInterval(Cadences(schedules), tickIntervalMs)
      ensures tickIntervalMs.Some? ==> this.tickIntervalMs == tickIntervalMs.value
      ensures tickIntervalMs.None? ==>
        && this.tickIntervalMs >= 1000
        && (forall s :: s in schedules ==> this.tickIntervalMs <= s.schedule.everyMs || this.tickIntervalMs == 1000)
        && (this.tickIntervalMs == 1000 || exists s :: s in schedules && s.schedule.everyMs == this.tickIntervalMs)
    {
      this.bus, this.schedules, this.uuid := bus, schedules, uuid;
      CadencesMembers(schedules);
      TickIntervalMeans(Cadences(schedules), tickIntervalMs);
      this.tickIntervalMs := TickInterval(Cadences(schedules), tickIntervalMs);
      drawn, timer := 0, None;
    }

    /** The bus's slot set mirrors its log, no slot is there twice, recorded slots are on the grids of
        their schedules, and registry entries are keyed by type. */
    ghost predicate Valid()
      reads this, bus
    {
      && bus.Mirrored() && OnePerSlotKey(bus.publishedEvents)
      && OnGrid(bus.publishedEvents, schedules) && DistinctKinds(schedules)
    }

    /** No subscriber of this type ever throws. */
    ghost predicate Reliable(kind: string)
      reads bus`handlers
    {
      kind in bus.handlers ==>
        forall k, e: BusEvent :: 0 <= k < |bus.handlers[kind]| && e.kind == kind ==>
          !bus.throws(bus.handlers[kind][k], e)
    }

    /** The slot is there afterwards whether this call created it or not, and even if it throws. */
    method MaterializeOne(ghost i: nat, s: ScheduledEvent, slot: int) returns (threw: bool)
      requires Valid() && i < |schedules| && s == schedules[i] && slot % s.schedule.everyMs == 0
      modifies this`drawn, bus`publishedEvents, bus`materialisedSlots, bus`calls
      ensures Valid()
      ensures Ticked(old(bus.publishedEvents), bus.publishedEvents, s, [slot])
      ensures HasTick(old(bus.publishedEvents), s.schedule.kind, slot) ==>
        bus.publishedEvents == old(bus.publishedEvents) && !threw
      ensures Reliable(s.schedule.kind) ==> !threw
    {
      ghost var before := bus.publishedEvents;
      ghost var e := TickEvent(uuid(drawn), s.schedule.kind, slot, s.pool, s.direction);
      var created := bus.MaterializeScheduledEvent(uuid(drawn), s.schedule.kind, slot, s.pool, s.direction);
      drawn := drawn + 1;
      threw := created.Err?;
      if created != Ok(false) {
        TickedOnce(before, s, slot, e);
        OneMore(before, e, slot);
        OnGridMore(before, schedules, i, e);
      }
    }

    /** The loop of a catch-up: every slot from `from` up to the current one, until a call throws. */
    method MaterializeUpTo(ghost i: nat, s: ScheduledEvent, from: int, current: int) returns (threw: bool, ghost n: nat)
      requires Valid() && i < |schedules| && s == schedules[i] && from % s.schedule.everyMs == 0
      modifies this`drawn, bus`publishedEvents, bus`materialisedSlots, bus`calls
      ensures Valid()
      ensures var slots := Progression(from, current, s.schedule.everyMs);
        && n <= |slots| && (if threw then n >= 1 else n == |slots|)
        && Ticked(old(bus.publishedEvents), bus.publishedEvents, s, slots[..n])
      ensures Reliable(s.schedule.kind) ==> !threw
    {
      ghost var before := bus.publishedEvents;
      var every := s.schedule.everyMs;
      var slot := from;
      threw, n := false, 0;
      ghost var slots := Progression(from, current, every);
      while slot <= current
        invariant Valid() && Standing(slots, n, slot, current, every)
        invariant Ticked(before, bus.publishedEvents, s, slots[..n])
        decreases current - slot
      {
        ghost var mid := bus.publishedEvents;
        threw := MaterializeOne(i, s, slot);
        OneSlotOn(slots, n, slot, current, every);
        TickedTwice(before, mid, bus.publishedEvents, s, slots[..n], [slot]);
        n := n + 1;
        if threw { return; }
        slot := slot + every;
      }
      AllAttempted(slots, n, slot, current, every);
    }

    /** Where a catch-up starts; see Backfill.FirstSlotOnGrid for what that means. */
    method CatchUpStart(last: Option<int>, current: int, every: Period, maxCatchUpSlots: int) returns (from: int)
      ensures from == FirstSlot(last, current, every, maxCatchUpSlots)
    {
      from := if last.Some? then last.value + every else current;
      if from > current { from := current; }
      var total := (current - from) / every + 1;
      if total > maxCatchUpSlots {
        from := current - (maxCatchUpSlots - 1) * every;
      }
    }

    method BackfillMissed(ghost i: nat, s: ScheduledEvent, nowMs: int) returns (threw: bool, ghost n: nat)
      requires Valid() && i < |schedules| && s == schedules[i]
      modifies this`drawn, bus`publishedEvents, bus`materialisedSlots, bus`calls
      ensures Valid()
      ensures var slots := BackfillSlots(NewestTick(old(bus.publishedEvents), s.schedule.kind),
                                         Aligned(nowMs, s.schedule.everyMs), s.schedule.everyMs,
                                         s.schedule.maxCatchUpSlots);
        && n <= |slots| && (if threw then n >= 1 else n == |slots|)
        && Ticked(old(bus.publishedEvents), bus.publishedEvents, s, slots[..n])
      ensures Reliable(s.schedule.kind) ==> !threw
    {
      var every := s.schedule.everyMs;
      var current := Aligned(nowMs, every);
      var last := bus.LastScheduledSlotMs(s.schedule.kind);
      NewestIs(bus.publishedEvents, s.schedule.kind, last);
      NewestOnGrid(bus.publishedEvents, schedules, i);
      SlotContains(nowMs, every, current);
      StartOnGrid(last, current, every, s.schedule.maxCatchUpSlots);
      var from := CatchUpStart(last, current, every, s.schedule.maxCatchUpSlots);
      threw, n := MaterializeUpTo(i, s, from, current);
    }

    /** One schedule's share of a boot pass. */
    method BootOne(ghost i: nat, s: ScheduledEvent, nowMs: int) returns (ghost n: nat)
      requires Valid() && i < |schedules| && s == schedules[i]
      modifies this`drawn, bus`publishedEvents, bus`materialisedSlots, bus`calls
      ensures Valid()
      ensures Share(old(bus.publishedEvents), bus.publishedEvents, s,
                    BootSlots(old(bus.publishedEvents), s.schedule, nowMs),
                    Reliable(s.schedule.kind), n)
    {
      var threw;
      if s.schedule.catchUp {
        threw, n := BackfillMissed(i, s, nowMs);
      } else {
        SlotContains(nowMs, s.schedule.everyMs, Aligned(nowMs, s.schedule.everyMs));
        threw := MaterializeOne(i, s, Aligned(nowMs, s.schedule.everyMs));
        n := 1;
        assert [Aligned(nowMs, s.schedule.everyMs)][..1] == [Aligned(nowMs, s.schedule.everyMs)];
      }
    }

    /** One schedule's share of a tick pass: the current and the next slot, until a call throws. */
    method TickOne(ghost i: nat, s: ScheduledEvent, nowMs: int) returns (ghost n: nat)
      requires Valid() && i < |schedules| && s == schedules[i]
      modifies this`drawn, bus`publishedEvents, bus`materialisedSlots, bus`calls
      ensures Valid()
      ensures Share(old(bus.publishedEvents), bus.publishedEvents, s, TickSlots(s.schedule, nowMs),
                    Reliable(s.schedule.kind), n)
    {
      var every := s.schedule.everyMs;
      var current := Aligned(nowMs, every);
      SlotContains(nowMs, every, current);
      SameResidue(current + every, current, 1, every);
      ghost var slots := TickSlots(s.schedule, nowMs);
      assert slots[..1] == [current] && slots[..2] == [current] + [current + every];
      var threw := MaterializeOne(i, s, current);
      n := 1;
      if threw { return; }
      ghost var half := bus.publishedEvents;
      threw := MaterializeOne(i, s, current + every);
      n := 2;
      TickedTwice(old(bus.publishedEvents), half, bus.publishedEvents, s, [current], [current + every]);
    }

    /** Which schedules have no throwing subscriber. */
    ghost function Sure(): (r: seq<bool>)
      reads bus
      ensures |r| == |schedules| && forall k :: 0 <= k < |r| ==> r[k] == Reliable(schedules[k].schedule.kind)
    {
      seq(|schedules|, k requires 0 <= k < |schedules| reads bus => Reliable(schedules[k].schedule.kind))
    }

    /** One turn of a boot pass. */
    method BootTurn(i: nat, nowMs: int, ghost before: seq<BusEvent>, ghost slots: seq<seq<int>>, ghost sure: seq<bool>)
      requires Valid() && i < |schedules| && slots == BootPlan(before, schedules, nowMs) && sure == Sure()
      requires PassOk(before, bus.publishedEvents, schedules, i, slots, sure)
      modifies this`drawn, bus`publishedEvents, bus`materialisedSlots, bus`calls
      ensures Valid() && PassOk(before, bus.publishedEvents, schedules, i + 1, slots, sure) && sure == Sure()
    {
      ghost var mid := bus.publishedEvents;
      ghost var n := BootOne(i, schedules[i], nowMs);
      PassStep(before, mid, bus.publishedEvents, schedules, i, slots, sure, n);
      assert forall j :: 0 <= j < |schedules| ==> sure[j] == Reliable(schedules[j].schedule.kind);
    }

    /** One turn of a tick pass. */
    method TickTurn(i: nat, nowMs: int, ghost before: seq<BusEvent>, ghost slots: seq<seq<int>>, ghost sure: seq<bool>)
      requires Valid() && i < |schedules| && slots == TickPlan(schedules, nowMs) && sure == Sure()
      requires PassOk(before, bus.publishedEvents, schedules, i, slots, sure)
      modifies this`drawn, bus`publishedEvents, bus`materialisedSlots, bus`calls
      ensures Valid() && PassOk(before, bus.publishedEvents, schedules, i + 1, slots, sure) && sure == Sure()
    {
      ghost var mid := bus.publishedEvents;
      ghost var n := TickOne(i, schedules[i], nowMs);
      PassStep(before, mid, bus.publishedEvents, schedules, i, slots, sure, n);
      assert forall j :: 0 <= j < |schedules| ==> sure[j] == Reliable(schedules[j].schedule.kind);
    }

    /** Boot pass: each schedule gets its current slot, or what it missed; a throw ends only its own share. */
    method MaterializeBoot(nowMs: int)
      requires Valid()
      modifies this`drawn, bus`publishedEvents, bus`materialisedSlots, bus`calls
      ensures Valid() && AllRouted(old(bus.publishedEvents), bus.publishedEvents, schedules)
      ensures forall j :: 0 <= j < |schedules| ==>
        Reached(old(bus.publishedEvents), bus.publishedEvents, schedules[j].schedule.kind,
                BootSlots(old(bus.publishedEvents), schedules[j].schedule, nowMs), Reliable(schedules[j].schedule.kind))
      ensures forall j :: 0 <= j < |schedules| ==>
        BootOutcome(old(bus.publishedEvents), bus.publishedEvents, schedules[j].schedule, nowMs,
                    Reliable(schedules[j].schedule.kind))
    {
      ghost var before := bus.publishedEvents;
      ghost var slots := BootPlan(before, schedules, nowMs);
      ghost var sure := Sure();
      for i := 0 to |schedules|
        invariant Valid() && PassOk(before, bus.publishedEvents, schedules, i, slots, sure) && sure == Sure()
      {
        BootTurn(i, nowMs, before, slots, sure);
      }
      assert forall j :: 0 <= j < |schedules| ==> sure[j] == Reliable(schedules[j].schedule.kind);
      BootPassAddsAll(before, bus.publishedEvents, schedules, nowMs, sure);
    }

    /** Tick pass: the current and the next slot of each schedule; a throw ends only its own share. */
    method MaterializeTick(nowMs: int)
      requires Valid()
      modifies this`drawn, bus`publishedEvents, bus`materialisedSlots, bus`calls
      ensures Valid() && AllRouted(old(bus.publishedEvents), bus.publishedEvents, schedules)
      ensures forall j :: 0 <= j < |schedules| ==>
        Reached(old(bus.publishedEvents), bus.publishedEvents, schedules[j].schedule.kind,
                TickSlots(schedules[j].schedule, nowMs), Reliable(schedules[j].schedule.kind))
      ensures forall j :: 0 <= j < |schedules| ==>
        TickOutcome(old(bus.publishedEvents), bus.publishedEvents, schedules[j].schedule, nowMs,
                    Reliable(schedules[j].schedule.kind))
    {
      ghost var before := bus.publishedEvents;
      ghost var slots := TickPlan(schedules, nowMs);
      ghost var sure := Sure();
      for i := 0 to |schedules|
        invariant Valid() && PassOk(before, bus.publishedEvents, schedules, i, slots, sure) && sure == Sure()
      {
        TickTurn(i, nowMs, before, slots, sure);
      }
      assert forall j :: 0 <= j < |schedules| ==> sure[j] == Reliable(schedules[j].schedule.kind);
      TickPassAddsAll(before, bus.publishedEvents, schedules, nowMs, sure);
    }

    /** Boots on every call but keeps at most one interval timer. */
    method Start(nowMs: int)
      requires Valid()
      modifies this`drawn, this`timer, bus`publishedEvents, bus`materialisedSlots, bus`calls
      ensures Valid() && AllRouted(old(bus.publishedEvents), bus.publishedEvents, schedules)
      ensures timer == if schedules == [] || old(timer).Some? then old(timer) else Some(tickIntervalMs)
      ensures forall j :: 0 <= j < |schedules| ==>
        Reached(old(bus.publishedEvents), bus.publishedEvents, schedules[j].schedule.kind,
                BootSlots(old(bus.publishedEvents), schedules[j].schedule, nowMs), Reliable(schedules[j].schedule.kind))
      ensures forall j :: 0 <= j < |schedules| ==>
        BootOutcome(old(bus.publishedEvents), bus.publishedEvents, schedules[j].schedule, nowMs,
                    Reliable(schedules[j].schedule.kind))
    {
      if schedules == [] { return; }
      MaterializeBoot(nowMs);
      if timer.Some? { return; }
      timer := Some(tickIntervalMs);
    }

    method Stop()
      modifies this`timer
      ensures timer.None?
    {
      timer := None;
    }

    /** The runtime's part: a start, then the interval timer firing at the later times. The ghost results
        are the logs just before and just after each pass. */
    method RunPasses(times: seq<int>) returns (ghost befores: seq<seq<BusEvent>>, ghost afters: seq<seq<BusEvent>>)
      requires Valid() && times != []
      modifies this`drawn, this`timer, bus`publishedEvents, bus`materialisedSlots, bus`calls
      ensures Valid() && |befores| == |afters| == |times|
      ensures afters[|times| - 1] == bus.publishedEvents && OnGrid(befores[0], schedules)
      ensures FleetRun(befores, afters, times, schedules, Sure())
    {
      befores, afters := [bus.publishedEvents], [];
      ghost var sure := Sure();
      Start(times[0]);
      afters := [bus.publishedEvents];
      for k := 1 to |times|
        invariant Valid() && |befores| == |afters| == k
        invariant afters[k - 1] == bus.publishedEvents && OnGrid(befores[0], schedules)
        invariant FleetRun(befores, afters, times[..k], schedules, sure)
      {
        ghost var mid := bus.publishedEvents;
        MaterializeTick(times[k]);
        FleetRunMore(befores, afters, times[..k], schedules, sure, mid, bus.publishedEvents, times[k]);
        assert times[..k + 1] == times[..k] + [times[k]];
        befores, afters := befores + [mid], afters + [bus.publishedEvents];
      }
      assert times[..|times|] == times;
    }

    /** With the first tick within one cadence of the boot pass and the others within two of each other,
        every slot of a schedule whose subscribers do not throw, from the boot slot to the one after the
        last pass, is in the log. With passes within one cadence so is, whatever the subscribers do, every
        slot from the first pass that attempts the current one first to the last pass. */
    method StartAndTick(times: seq<int>, ghost first: int, ghost later: int)
      requires Valid() && PassTimes(times, first, later)
      modifies this`drawn, this`timer, bus`publishedEvents, bus`materialisedSlots, bus`calls
      ensures Valid()
      ensures forall j, x :: 0 <= j < |schedules| && Reliable(schedules[j].schedule.kind)
                             && Covered(schedules[j].schedule, first, later)
                             && InRun(times, schedules[j].schedule, x) ==>
        HasTick(bus.publishedEvents, schedules[j].schedule.kind, x)
      ensures forall j, x :: 0 <= j < |schedules| && Tight(schedules[j].schedule, first, later)
                             && AmongCurrents(times, schedules[j].schedule, x) ==>
        HasTick(bus.publishedEvents, schedules[j].schedule.kind, x)
    {
      ghost var befores, afters;
      befores, afters := RunPasses(times);
      FleetRunCovers(befores, afters, times, schedules, Sure(), first, later);
    }
  }
}
