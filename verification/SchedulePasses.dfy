/** What scheduler passes do to the event log. */
module SchedulePasses {
  import opened Options
  import opened SlotMath
  import opened SlotKeys
  import opened Backfill
  import opened Cadence
  import opened KeysetPaging
  import opened InMemoryBus
  import ScheduleFleet

  /** A schedule with the routing metadata its ticks carry. */
  datatype ScheduledEvent = ScheduledEvent(schedule: Schedule, direction: string, pool: string)

  function Cadences(schedules: seq<ScheduledEvent>): seq<Schedule> {
    seq(|schedules|, k requires 0 <= k < |schedules| => schedules[k].schedule)
  }

  lemma CadencesMembers(schedules: seq<ScheduledEvent>)
    ensures forall s :: s in schedules ==> s.schedule in Cadences(schedules)
    ensures forall c :: c in Cadences(schedules) ==> exists s :: s in schedules && s.schedule == c
  {
    forall s | s in schedules ensures s.schedule in Cadences(schedules) {
      var k :| 0 <= k < |schedules| && schedules[k] == s;
      assert Cadences(schedules)[k] == s.schedule;
    }
    forall c | c in Cadences(schedules) ensures exists s :: s in schedules && s.schedule == c {
      var k :| 0 <= k < |schedules| && Cadences(schedules)[k] == c;
      assert schedules[k].schedule == c;
    }
  }

  // ---------------------------------------------------------------- recorded ticks

  /** The scheduled events of the log, by type and instant. */
  function Ticks(log: seq<BusEvent>): (r: seq<ScheduleFleet.Tick>)
    ensures forall kind, slot :: ScheduleFleet.Tick(kind, slot) in r <==> RecordedAt(log, kind, slot)
  {
    if log == [] then []
    else
      var n := |log| - 1;
      var before := Ticks(log[..n]);
      assert log == log[..n] + [log[n]];
      assert forall kind, slot :: RecordedAt(log, kind, slot) <==>
        RecordedAt(log[..n], kind, slot) || (Scheduled(log[n], kind) && log[n].occurredAt == slot);
      if log[n].scheduleSlot.Some? then before + [ScheduleFleet.Tick(log[n].kind, log[n].occurredAt)] else before
  }

  predicate RecordedAt(log: seq<BusEvent>, kind: string, slot: int) {
    exists e :: e in log && Scheduled(e, kind) && e.occurredAt == slot
  }

  /** The newest recorded tick of a type. */
  function NewestTick(log: seq<BusEvent>, kind: string): Option<int> {
    ScheduleFleet.LastSlot(Ticks(log), kind)
  }

  lemma NewestIs(log: seq<BusEvent>, kind: string, last: Option<int>)
    requires last.None? ==> forall k :: 0 <= k < |log| ==> !Scheduled(log[k], kind)
    requires last.Some? ==>
      && (exists k :: 0 <= k < |log| && Scheduled(log[k], kind) && log[k].occurredAt == last.value)
      && (forall k :: 0 <= k < |log| && Scheduled(log[k], kind) ==> log[k].occurredAt <= last.value)
    ensures last == NewestTick(log, kind)
  {
    var rows, r := Ticks(log), NewestTick(log, kind);
    if last.Some? {
      assert RecordedAt(log, kind, last.value);
      var k :| 0 <= k < |rows| && rows[k] == ScheduleFleet.Tick(kind, last.value);
    }
    if r.Some? { assert RecordedAt(log, kind, r.value); }
  }

  lemma NewestRecorded(log: seq<BusEvent>, kind: string)
    requires NewestTick(log, kind).Some?
    ensures RecordedAt(log, kind, NewestTick(log, kind).value)
  {
  }

  /** Logs that record the same slots of a type have the same newest one. */
  lemma SameNewest(a: seq<BusEvent>, b: seq<BusEvent>, kind: string)
    requires forall slot :: RecordedAt(a, kind, slot) <==> RecordedAt(b, kind, slot)
    ensures NewestTick(a, kind) == NewestTick(b, kind)
  {
    SameLast(Ticks(a), Ticks(b), kind);
  }

  lemma SameLast(a: seq<ScheduleFleet.Tick>, b: seq<ScheduleFleet.Tick>, kind: string)
    requires forall slot :: ScheduleFleet.Tick(kind, slot) in a <==> ScheduleFleet.Tick(kind, slot) in b
    ensures ScheduleFleet.LastSlot(a, kind) == ScheduleFleet.LastSlot(b, kind)
  {
    var r, q := ScheduleFleet.LastSlot(a, kind), ScheduleFleet.LastSlot(b, kind);
    if r.Some? {
      var k :| 0 <= k < |b| && b[k] == ScheduleFleet.Tick(kind, r.value);
      assert q.Some? && r.value <= q.value;
    }
    if q.Some? {
      var k :| 0 <= k < |a| && a[k] == ScheduleFleet.Tick(kind, q.value);
      assert r.Some? && q.value <= r.value;
    }
  }

  /** Recorded slots lie on the grids of their schedules. */
  ghost predicate OnGrid(log: seq<BusEvent>, schedules: seq<ScheduledEvent>) {
    forall e, j :: e in log && 0 <= j < |schedules| && Scheduled(e, schedules[j].schedule.kind) ==>
      e.occurredAt % schedules[j].schedule.everyMs == 0
  }

  ghost predicate DistinctKinds(schedules: seq<ScheduledEvent>) {
    forall j, k :: 0 <= j < k < |schedules| ==> schedules[j].schedule.kind != schedules[k].schedule.kind
  }

  lemma OnGridMore(log: seq<BusEvent>, schedules: seq<ScheduledEvent>, i: nat, e: BusEvent)
    requires OnGrid(log, schedules) && DistinctKinds(schedules) && i < |schedules|
    requires Scheduled(e, schedules[i].schedule.kind) && e.occurredAt % schedules[i].schedule.everyMs == 0
    ensures OnGrid(log + [e], schedules)
  {
    forall x, j | x in log + [e] && 0 <= j < |schedules| && Scheduled(x, schedules[j].schedule.kind)
      ensures x.occurredAt % schedules[j].schedule.everyMs == 0
    {
      if x == e { assert j == i; } else { assert x in log; }
    }
  }

  lemma NewestOnGrid(log: seq<BusEvent>, schedules: seq<ScheduledEvent>, i: nat)
    requires OnGrid(log, schedules) && i < |schedules|
    ensures var last := NewestTick(log, schedules[i].schedule.kind);
      last.Some? ==> last.value % schedules[i].schedule.everyMs == 0
  {
    var kind := schedules[i].schedule.kind;
    var last := NewestTick(log, kind);
    if last.Some? {
      NewestRecorded(log, kind);
      var e :| e in log && Scheduled(e, kind) && e.occurredAt == last.value;
    }
  }

  /** No two scheduled events share a type and a slot key. */
  ghost predicate OnePerSlotKey(log: seq<BusEvent>) {
    forall j, k :: 0 <= j < k < |log| && log[j].scheduleSlot.Some? ==>
      log[j].kind != log[k].kind || log[j].scheduleSlot != log[k].scheduleSlot
  }

  lemma OneMore(log: seq<BusEvent>, e: BusEvent, slot: int)
    requires OnePerSlotKey(log) && e.scheduleSlot == Some(SlotKeyFor(e.kind, slot)) && !HasTick(log, e.kind, slot)
    ensures OnePerSlotKey(log + [e])
  {
  }

  // ---------------------------------------------------------------- what a pass is to do

  /** What a boot pass attempts for one schedule. */
  function BootSlots(log: seq<BusEvent>, s: Schedule, now: int): seq<int> {
    var current := Aligned(now, s.everyMs);
    if s.catchUp then BackfillSlots(NewestTick(log, s.kind), current, s.everyMs, s.maxCatchUpSlots) else [current]
  }

  function TickSlots(s: Schedule, now: int): seq<int> {
    var current := Aligned(now, s.everyMs);
    [current, current + s.everyMs]
  }

  function BootPlan(log: seq<BusEvent>, schedules: seq<ScheduledEvent>, now: int): (r: seq<seq<int>>)
    ensures |r| == |schedules|
    ensures forall j :: 0 <= j < |r| ==> r[j] == BootSlots(log, schedules[j].schedule, now)
  {
    seq(|schedules|, j requires 0 <= j < |schedules| => BootSlots(log, schedules[j].schedule, now))
  }

  function TickPlan(schedules: seq<ScheduledEvent>, now: int): (r: seq<seq<int>>)
    ensures |r| == |schedules|
    ensures forall j :: 0 <= j < |r| ==> r[j] == TickSlots(schedules[j].schedule, now)
  {
    seq(|schedules|, j requires 0 <= j < |schedules| => TickSlots(schedules[j].schedule, now))
  }

  /** Unless its schedule allows no catch-up slots at all, a boot pass is to attempt the current slot. */
  lemma BootReachesCurrent(log: seq<BusEvent>, schedules: seq<ScheduledEvent>, i: nat, now: int)
    requires OnGrid(log, schedules) && i < |schedules|
    ensures var s := schedules[i].schedule;
      Aligned(now, s.everyMs) in BootSlots(log, s, now) <==> (s.catchUp ==> s.maxCatchUpSlots >= 1)
  {
    var s := schedules[i].schedule;
    var current, last := Aligned(now, s.everyMs), NewestTick(log, s.kind);
    if s.catchUp {
      NewestOnGrid(log, schedules, i);
      SlotContains(now, s.everyMs, current);
      if s.maxCatchUpSlots >= 1 {
        if last.Some? { SameGrid(current, last.value, s.everyMs); }
        HitsCurrentExactly(last, current, s.everyMs, s.maxCatchUpSlots);
      } else {
        NoBudget(last, current, s.everyMs, s.maxCatchUpSlots);
      }
    }
  }

  // ---------------------------------------------------------------- what a pass did

  /** A tick of this schedule, with its routing metadata. */
  predicate Routed(e: BusEvent, s: ScheduledEvent) {
    Scheduled(e, s.schedule.kind) && e.pool == Some(s.pool) && e.direction == Some(s.direction)
  }

  /** Afterwards the log has exactly these slots of the type besides what it had. */
  ghost predicate PassLog(before: seq<BusEvent>, after: seq<BusEvent>, kind: string, slots: seq<int>) {
    forall x :: HasTick(after, kind, x) <==> HasTick(before, kind, x) || x in slots
  }

  /** The log grew by ticks of one schedule only, and has exactly the given slots besides what it had. */
  ghost predicate Ticked(before: seq<BusEvent>, after: seq<BusEvent>, s: ScheduledEvent, slots: seq<int>) {
    && before <= after
    && (forall k :: |before| <= k < |after| ==> Routed(after[k], s))
    && PassLog(before, after, s.schedule.kind, slots)
  }

  lemma TickedOnce(before: seq<BusEvent>, s: ScheduledEvent, slot: int, e: BusEvent)
    requires Routed(e, s) && e.scheduleSlot == Some(SlotKeyFor(s.schedule.kind, slot))
    ensures Ticked(before, before + [e], s, [slot])
  {
    var after, kind := before + [e], s.schedule.kind;
    assert after[|before|] == e;
    forall x ensures HasTick(after, kind, x) <==> HasTick(before, kind, x) || x in [slot] {
      if HasTick(after, kind, x) {
        var k :| 0 <= k < |after| && after[k].kind == kind && after[k].scheduleSlot == Some(SlotKeyFor(kind, x));
        if k == |before| { SlotKeyInjective(kind, x, kind, slot); } else { assert before[k] == after[k]; }
      }
      if HasTick(before, kind, x) {
        var k :| 0 <= k < |before| && before[k].kind == kind && before[k].scheduleSlot == Some(SlotKeyFor(kind, x));
        assert after[k] == before[k];
      }
    }
  }

  lemma TickedTwice(a: seq<BusEvent>, b: seq<BusEvent>, c: seq<BusEvent>, s: ScheduledEvent, xs: seq<int>, ys: seq<int>)
    requires Ticked(a, b, s, xs) && Ticked(b, c, s, ys)
    ensures Ticked(a, c, s, xs + ys)
  {
    assert forall k :: |a| <= k < |b| ==> c[k] == b[k];
  }

  lemma OtherTicks(before: seq<BusEvent>, after: seq<BusEvent>, s: ScheduledEvent, slots: seq<int>, other: string,
      x: int)
    requires Ticked(before, after, s, slots) && other != s.schedule.kind
    ensures HasTick(after, other, x) <==> HasTick(before, other, x)
  {
    if HasTick(after, other, x) {
      var k :| 0 <= k < |after| && after[k].kind == other && after[k].scheduleSlot == Some(SlotKeyFor(other, x));
      assert before[k] == after[k];
    }
    if HasTick(before, other, x) {
      var k :| 0 <= k < |before| && before[k].kind == other && before[k].scheduleSlot == Some(SlotKeyFor(other, x));
      assert before[k] == after[k];
    }
  }

  lemma OtherRecords(before: seq<BusEvent>, after: seq<BusEvent>, s: ScheduledEvent, slots: seq<int>, other: string,
      x: int)
    requires Ticked(before, after, s, slots) && other != s.schedule.kind
    ensures RecordedAt(after, other, x) <==> RecordedAt(before, other, x)
  {
    if RecordedAt(after, other, x) {
      var e :| e in after && Scheduled(e, other) && e.occurredAt == x;
      var k :| 0 <= k < |after| && after[k] == e;
      assert before[k] == e;
    }
    if RecordedAt(before, other, x) {
      var e :| e in before && Scheduled(e, other) && e.occurredAt == x;
      var k :| 0 <= k < |before| && before[k] == e;
      assert after[k] == e;
    }
  }

  ghost predicate SameTicks(before: seq<BusEvent>, after: seq<BusEvent>, kind: string) {
    forall x :: HasTick(after, kind, x) <==> HasTick(before, kind, x)
  }

  /** Serving one schedule leaves every other one as it was. */
  lemma OneScheduleOn(mid: seq<BusEvent>, after: seq<BusEvent>, s: ScheduledEvent, slots: seq<int>, other: string)
    requires Ticked(mid, after, s, slots) && other != s.schedule.kind
    ensures SameTicks(mid, after, other) && NewestTick(after, other) == NewestTick(mid, other)
  {
    forall x ensures HasTick(after, other, x) <==> HasTick(mid, other, x) {
      OtherTicks(mid, after, s, slots, other, x);
    }
    forall x ensures RecordedAt(after, other, x) <==> RecordedAt(mid, other, x) {
      OtherRecords(mid, after, s, slots, other, x);
    }
    SameNewest(after, mid, other);
  }

  /** Everything a pass added is a tick of one of its schedules. */
  ghost predicate AllRouted(before: seq<BusEvent>, after: seq<BusEvent>, schedules: seq<ScheduledEvent>) {
    && before <= after
    && forall k :: |before| <= k < |after| ==> exists j :: 0 <= j < |schedules| && Routed(after[k], schedules[j])
  }

  lemma RoutedFurther(a: seq<BusEvent>, b: seq<BusEvent>, c: seq<BusEvent>, schedules: seq<ScheduledEvent>, j: nat,
      slots: seq<int>)
    requires AllRouted(a, b, schedules) && j < |schedules| && Ticked(b, c, schedules[j], slots)
    ensures AllRouted(a, c, schedules)
  {
    forall k | |a| <= k < |c| ensures exists i :: 0 <= i < |schedules| && Routed(c[k], schedules[i]) {
      if k < |b| { assert c[k] == b[k]; }
    }
  }

  /** The pass got through n of the slots: at least the first, and all unless a call threw. */
  ghost predicate Served(before: seq<BusEvent>, after: seq<BusEvent>, kind: string, slots: seq<int>, all: bool,
      n: nat)
  {
    n <= |slots| && (slots != [] ==> n >= 1) && (all ==> n == |slots|) && PassLog(before, after, kind, slots[..n])
  }

  ghost predicate Reached(before: seq<BusEvent>, after: seq<BusEvent>, kind: string, slots: seq<int>, all: bool) {
    exists n: nat :: Served(before, after, kind, slots, all, n)
  }

  /** A pass has served the first i schedules, each with its slots, and left the others alone. */
  ghost predicate PassOk(before: seq<BusEvent>, after: seq<BusEvent>, schedules: seq<ScheduledEvent>, i: nat,
      slots: seq<seq<int>>, sure: seq<bool>)
    requires i <= |schedules| == |slots| == |sure|
  {
    && AllRouted(before, after, schedules)
    && (forall j :: 0 <= j < i ==> Reached(before, after, schedules[j].schedule.kind, slots[j], sure[j]))
    && forall j :: i <= j < |schedules| ==>
      && SameTicks(before, after, schedules[j].schedule.kind)
      && NewestTick(after, schedules[j].schedule.kind) == NewestTick(before, schedules[j].schedule.kind)
  }

  /** One schedule's share of a pass: the first n of its slots, at least one if there are any, and all
      of them when nothing throws. */
  ghost predicate Share(before: seq<BusEvent>, after: seq<BusEvent>, s: ScheduledEvent, slots: seq<int>, sure: bool,
      n: nat)
  {
    && n <= |slots| && (slots != [] ==> n >= 1) && (sure ==> n == |slots|)
    && Ticked(before, after, s, slots[..n])
  }

  lemma StillReached(before: seq<BusEvent>, mid: seq<BusEvent>, after: seq<BusEvent>, kind: string,
      slots: seq<int>, all: bool)
    requires Reached(before, mid, kind, slots, all) && SameTicks(mid, after, kind)
    ensures Reached(before, after, kind, slots, all)
  {
    var n: nat :| Served(before, mid, kind, slots, all, n);
    assert Served(before, after, kind, slots, all, n);
  }

  lemma PassStep(before: seq<BusEvent>, mid: seq<BusEvent>, after: seq<BusEvent>, schedules: seq<ScheduledEvent>,
      i: nat, slots: seq<seq<int>>, sure: seq<bool>, n: nat)
    requires i < |schedules| == |slots| == |sure| && PassOk(before, mid, schedules, i, slots, sure)
    requires DistinctKinds(schedules)
    requires Share(mid, after, schedules[i], slots[i], sure[i], n)
    ensures PassOk(before, after, schedules, i + 1, slots, sure)
  {
    RoutedFurther(before, mid, after, schedules, i, slots[i][..n]);
    forall j | 0 <= j < |schedules| && j != i
      ensures SameTicks(mid, after, schedules[j].schedule.kind)
      ensures NewestTick(after, schedules[j].schedule.kind) == NewestTick(mid, schedules[j].schedule.kind)
    {
      OneScheduleOn(mid, after, schedules[i], slots[i][..n], schedules[j].schedule.kind);
    }
    forall j | 0 <= j < i ensures Reached(before, after, schedules[j].schedule.kind, slots[j], sure[j]) {
      StillReached(before, mid, after, schedules[j].schedule.kind, slots[j], sure[j]);
    }
    assert Served(before, after, schedules[i].schedule.kind, slots[i], sure[i], n);
  }

  // ---------------------------------------------------------------- what is there after a pass

  /** The slot that holds the instant, or the one after it. */
  predicate DueAtTick(s: Schedule, now: int, x: int) {
    x % s.everyMs == 0 && x - s.everyMs <= now < x + s.everyMs
  }

  /** The slot that holds the instant; of a schedule that catches up, also the slots before it that are newer
      than every recorded one, if any is recorded, as far back as the cap reaches. */
  ghost predicate DueAtBoot(log: seq<BusEvent>, s: Schedule, now: int, x: int) {
    && x % s.everyMs == 0 && x <= now
    && if !s.catchUp then now < x + s.everyMs
       else
         && now < x + s.maxCatchUpSlots * s.everyMs
         && (now < x + s.everyMs || NewerThanRecorded(log, s.kind, x))
  }

  ghost predicate NewerThanRecorded(log: seq<BusEvent>, kind: string, x: int) {
    && (exists e :: e in log && e.kind == kind && e.scheduleSlot.Some?)
    && forall e :: e in log && e.kind == kind && e.scheduleSlot.Some? ==> e.occurredAt < x
  }

  lemma DueAtTickMeans(s: Schedule, now: int, x: int)
    ensures DueAtTick(s, now, x) <==> x in TickSlots(s, now)
  {
    SlotContains(now, s.everyMs, x);
    SlotContains(now, s.everyMs, x - s.everyMs);
    SameResidue(x, x - s.everyMs, 1, s.everyMs);
  }

  lemma NewestMeans(log: seq<BusEvent>, kind: string, x: int)
    ensures var last := NewestTick(log, kind); NewerThanRecorded(log, kind, x) <==> last.Some? && last.value < x
  {
    var last := NewestTick(log, kind);
    if last.Some? { NewestRecorded(log, kind); }
    forall e | e in log && Scheduled(e, kind) ensures last.Some? && e.occurredAt <= last.value {
      assert RecordedAt(log, kind, e.occurredAt);
      var k :| 0 <= k < |Ticks(log)| && Ticks(log)[k] == ScheduleFleet.Tick(kind, e.occurredAt);
    }
  }

  lemma DueAtBootMeans(log: seq<BusEvent>, schedules: seq<ScheduledEvent>, i: nat, now: int, x: int)
    requires OnGrid(log, schedules) && i < |schedules|
    ensures var s := schedules[i].schedule; DueAtBoot(log, s, now, x) <==> x in BootSlots(log, s, now)
  {
    var s := schedules[i].schedule;
    var current, last := Aligned(now, s.everyMs), NewestTick(log, s.kind);
    SlotContains(now, s.everyMs, x);
    SlotContains(now, s.everyMs, current);
    if s.catchUp {
      NewestOnGrid(log, schedules, i);
      ScheduleFleet.CatchUpSlots(s, last, current, x);
      NewestMeans(log, s.kind, x);
      if x % s.everyMs == 0 { CapFromNow(s, now, current, x); }
    }
  }

  /** The cap counts from the slot that holds the instant. */
  lemma CapFromNow(s: Schedule, now: int, current: int, x: int)
    requires current % s.everyMs == 0 && x % s.everyMs == 0 && current <= now < current + s.everyMs
    ensures x <= now <==> x <= current
    ensures now < x + s.everyMs <==> current - s.everyMs < x
    ensures now < x + s.maxCatchUpSlots * s.everyMs <==> current - s.maxCatchUpSlots * s.everyMs < x
  {
    var n := s.maxCatchUpSlots;
    SameGrid(current, x, s.everyMs);
    if x > current { NextOnGrid(current, x, s.everyMs); }
    if current - s.everyMs < x { ScheduleFleet.WithinCap(current, x, s.everyMs, 1); }
    if current - n * s.everyMs < x { ScheduleFleet.WithinCap(current, x, s.everyMs, n); }
  }

  /** A schedule has what it had and the slot that holds the instant, whatever throws; if nothing throws it
      has the next one too, and besides these no other. */
  ghost predicate TickOutcome(before: seq<BusEvent>, after: seq<BusEvent>, s: Schedule, now: int, all: bool) {
    forall x ::
      && (HasTick(after, s.kind, x) ==> HasTick(before, s.kind, x) || DueAtTick(s, now, x))
      && (HasTick(before, s.kind, x) || (DueAtTick(s, now, x) && (all || x <= now)) ==> HasTick(after, s.kind, x))
  }

  lemma TickPassAdds(before: seq<BusEvent>, after: seq<BusEvent>, s: Schedule, now: int, all: bool)
    requires Reached(before, after, s.kind, TickSlots(s, now), all)
    ensures TickOutcome(before, after, s, now, all)
  {
    var n: nat :| Served(before, after, s.kind, TickSlots(s, now), all, n);
    forall x
      ensures HasTick(after, s.kind, x) ==> HasTick(before, s.kind, x) || DueAtTick(s, now, x)
      ensures HasTick(before, s.kind, x) || (DueAtTick(s, now, x) && (all || x <= now)) ==> HasTick(after, s.kind, x)
    {
      DueAtTickMeans(s, now, x);
      SlotContains(now, s.everyMs, x);
      if DueAtTick(s, now, x) && (all || x <= now) {
        ReachedHolds(before, after, s.kind, TickSlots(s, now), all, x);
      } else if HasTick(after, s.kind, x) && x in TickSlots(s, now)[..n] {
        assert x in TickSlots(s, now);
      }
    }
  }

  /** A schedule has what it had and the oldest slot it was due, whatever throws; if nothing throws it has all
      it was due, and besides these no other. */
  ghost predicate BootOutcome(before: seq<BusEvent>, after: seq<BusEvent>, s: Schedule, now: int, all: bool) {
    forall x ::
      && (HasTick(after, s.kind, x) ==> HasTick(before, s.kind, x) || DueAtBoot(before, s, now, x))
      && (HasTick(before, s.kind, x) || (DueAtBoot(before, s, now, x) && (all || OldestDue(before, s, now, x))) ==>
            HasTick(after, s.kind, x))
  }

  ghost predicate OldestDue(log: seq<BusEvent>, s: Schedule, now: int, x: int) {
    forall y :: DueAtBoot(log, s, now, y) ==> x <= y
  }

  lemma BootPassAdds(before: seq<BusEvent>, after: seq<BusEvent>, schedules: seq<ScheduledEvent>, i: nat, now: int,
      all: bool)
    requires OnGrid(before, schedules) && i < |schedules|
    requires Reached(before, after, schedules[i].schedule.kind, BootSlots(before, schedules[i].schedule, now), all)
    ensures BootOutcome(before, after, schedules[i].schedule, now, all)
  {
    var s := schedules[i].schedule;
    var slots := BootSlots(before, s, now);
    var n: nat :| Served(before, after, s.kind, slots, all, n);
    forall x
      ensures HasTick(after, s.kind, x) ==> HasTick(before, s.kind, x) || DueAtBoot(before, s, now, x)
      ensures HasTick(before, s.kind, x) || (DueAtBoot(before, s, now, x) && (all || OldestDue(before, s, now, x))) ==>
        HasTick(after, s.kind, x)
    {
      DueAtBootMeans(before, schedules, i, now, x);
      if HasTick(after, s.kind, x) && x in slots[..n] { assert x in slots; }
      if DueAtBoot(before, s, now, x) && (all || OldestDue(before, s, now, x)) {
        var k :| 0 <= k < |slots| && slots[k] == x;
        DueAtBootMeans(before, schedules, i, now, slots[0]);
        FirstIsOldest(before, s, now, k);
        ReachedHolds(before, after, s.kind, slots, all, x);
      } else if HasTick(before, s.kind, x) {
        ReachedHolds(before, after, s.kind, slots, all, x);
      }
    }
  }

  lemma TickPassAddsAll(before: seq<BusEvent>, after: seq<BusEvent>, schedules: seq<ScheduledEvent>, now: int,
      sure: seq<bool>)
    requires |sure| == |schedules|
    requires PassOk(before, after, schedules, |schedules|, TickPlan(schedules, now), sure)
    ensures forall j :: 0 <= j < |schedules| ==> TickOutcome(before, after, schedules[j].schedule, now, sure[j])
  {
    forall j | 0 <= j < |schedules| ensures TickOutcome(before, after, schedules[j].schedule, now, sure[j]) {
      TickPassAdds(before, after, schedules[j].schedule, now, sure[j]);
    }
  }

  lemma BootPassAddsAll(before: seq<BusEvent>, after: seq<BusEvent>, schedules: seq<ScheduledEvent>, now: int,
      sure: seq<bool>)
    requires OnGrid(before, schedules) && |sure| == |schedules|
    requires PassOk(before, after, schedules, |schedules|, BootPlan(before, schedules, now), sure)
    ensures forall j :: 0 <= j < |schedules| ==> BootOutcome(before, after, schedules[j].schedule, now, sure[j])
  {
    forall j | 0 <= j < |schedules| ensures BootOutcome(before, after, schedules[j].schedule, now, sure[j]) {
      BootPassAdds(before, after, schedules, j, now, sure[j]);
    }
  }

  lemma FirstIsOldest(log: seq<BusEvent>, s: Schedule, now: int, k: int)
    requires 0 <= k < |BootSlots(log, s, now)|
    ensures BootSlots(log, s, now)[0] <= BootSlots(log, s, now)[k]
  {
    var current := Aligned(now, s.everyMs);
    if s.catchUp {
      ProgressionShape(FirstSlot(NewestTick(log, s.kind), current, s.everyMs, s.maxCatchUpSlots), current, s.everyMs);
      assert 0 <= k * s.everyMs;
    }
  }

  // ---------------------------------------------------------------- whole runs

  /** The log just before and just after each pass of one instance; in between others only add. `all`
      says whether no call for this schedule ever throws. */
  ghost predicate PassRun(befores: seq<seq<BusEvent>>, afters: seq<seq<BusEvent>>, times: seq<int>, s: Schedule,
      all: bool)
  {
    && |befores| == |afters| == |times| > 0
    && Reached(befores[0], afters[0], s.kind, BootSlots(befores[0], s, times[0]), all)
    && (forall k :: 0 < k < |times| ==> afters[k - 1] <= befores[k])
    && forall k :: 0 < k < |times| ==> Reached(befores[k], afters[k], s.kind, TickSlots(s, times[k]), all)
  }

  /** A pass loses nothing, and it has its first slot whatever throws. */
  lemma ReachedHolds(before: seq<BusEvent>, after: seq<BusEvent>, kind: string, slots: seq<int>, all: bool, x: int)
    requires Reached(before, after, kind, slots, all)
    requires HasTick(before, kind, x) || (slots != [] && x == slots[0]) || (all && x in slots)
    ensures HasTick(after, kind, x)
  {
    var n: nat :| Served(before, after, kind, slots, all, n);
    if all { assert slots[..n] == slots; }
    if slots != [] { assert slots[..n][0] == slots[0]; }
  }

  lemma TickStays(a: seq<BusEvent>, b: seq<BusEvent>, kind: string, x: int)
    requires a <= b && HasTick(a, kind, x)
    ensures HasTick(b, kind, x)
  {
    var k :| 0 <= k < |a| && a[k].kind == kind && a[k].scheduleSlot == Some(SlotKeyFor(kind, x));
    assert b[k] == a[k];
  }

  lemma {:induction false} AttemptsStay(befores: seq<seq<BusEvent>>, afters: seq<seq<BusEvent>>, times: seq<int>,
      s: Schedule, all: bool, k: nat, x: int)
    requires PassRun(befores, afters, times, s, all) && k < |times| && HasTick(afters[k], s.kind, x)
    ensures HasTick(afters[|times| - 1], s.kind, x)
    decreases |times| - k
  {
    if k + 1 < |times| {
      assert afters[(k + 1) - 1] <= befores[k + 1];
      TickStays(afters[k], befores[k + 1], s.kind, x);
      ReachedHolds(befores[k + 1], afters[k + 1], s.kind, TickSlots(s, times[k + 1]), all, x);
      AttemptsStay(befores, afters, times, s, all, k + 1, x);
    }
  }

  /** What one pass of the run attempted is there at the end. */
  lemma AttemptPresent(befores: seq<seq<BusEvent>>, afters: seq<seq<BusEvent>>, times: seq<int>,
      s: Schedule, k: nat, x: int)
    requires PassRun(befores, afters, times, s, true) && k < |times|
    requires x == Aligned(times[k], s.everyMs) || (k > 0 && x == Aligned(times[k], s.everyMs) + s.everyMs)
    requires Aligned(times[0], s.everyMs) in BootSlots(befores[0], s, times[0])
    ensures HasTick(afters[|times| - 1], s.kind, x)
  {
    if k == 0 {
      ReachedHolds(befores[0], afters[0], s.kind, BootSlots(befores[0], s, times[0]), true, x);
    } else {
      assert x == TickSlots(s, times[k])[0] || x == TickSlots(s, times[k])[1];
      ReachedHolds(befores[k], afters[k], s.kind, TickSlots(s, times[k]), true, x);
    }
    AttemptsStay(befores, afters, times, s, true, k, x);
  }

  /** The cadence is safe from these distances, and a catch-up schedule may catch up at all. */
  predicate Covered(s: Schedule, first: int, later: int) {
    first <= s.everyMs && later <= 2 * s.everyMs && (s.catchUp ==> s.maxCatchUpSlots >= 1)
  }

  lemma OnePassMore(befores: seq<seq<BusEvent>>, afters: seq<seq<BusEvent>>, times: seq<int>, s: Schedule,
      all: bool, before: seq<BusEvent>, after: seq<BusEvent>, now: int)
    requires PassRun(befores, afters, times, s, all) && afters[|afters| - 1] <= before
    requires Reached(before, after, s.kind, TickSlots(s, now), all)
    ensures PassRun(befores + [before], afters + [after], times + [now], s, all)
  {
    var bs, cs, ts := befores + [before], afters + [after], times + [now];
    forall k | 0 < k < |ts| ensures cs[k - 1] <= bs[k] && Reached(bs[k], cs[k], s.kind, TickSlots(s, ts[k]), all) {
      if k < |times| {
        assert afters[k - 1] <= befores[k] && Reached(befores[k], afters[k], s.kind, TickSlots(s, times[k]), all);
      }
    }
  }

  /** The first pass that attempts the current slot before any other: the boot pass unless it catches up. */
  function FirstCurrent(s: Schedule): nat { if s.catchUp then 1 else 0 }

  /** Passes at most one cadence apart from there on. */
  predicate Tight(s: Schedule, first: int, later: int) {
    (s.catchUp || first <= s.everyMs) && later <= s.everyMs
  }

  /** A grid slot from the current one of that pass to the current one of the last. */
  ghost predicate AmongCurrents(times: seq<int>, s: Schedule, x: int) {
    && FirstCurrent(s) < |times| && x % s.everyMs == 0
    && Aligned(times[FirstCurrent(s)], s.everyMs) <= x <= Aligned(times[|times| - 1], s.everyMs)
  }

  /** What throws costs a pass only the slots after its first: with passes at most one cadence apart a
      run leaves every slot from its first current one to its last in the log, whatever the
      subscribers do and other instances add in between. */
  lemma NoCurrentSlotMissing(befores: seq<seq<BusEvent>>, afters: seq<seq<BusEvent>>, times: seq<int>, s: Schedule,
      all: bool, first: int, later: int, x: int)
    requires PassRun(befores, afters, times, s, all) && PassTimes(times, first, later)
    requires Tight(s, first, later) && AmongCurrents(times, s, x)
    ensures HasTick(afters[|times| - 1], s.kind, x)
  {
    var k := VisitsSlot(times, s.everyMs, FirstCurrent(s), first, later, x);
    if k == 0 {
      assert BootSlots(befores[0], s, times[0]) == [x];
      ReachedHolds(befores[0], afters[0], s.kind, [x], all, x);
    } else {
      assert TickSlots(s, times[k])[0] == x;
      ReachedHolds(befores[k], afters[k], s.kind, TickSlots(s, times[k]), all, x);
    }
    AttemptsStay(befores, afters, times, s, all, k, x);
  }

  /** A grid slot from the boot slot to the latest one a run is to attempt. */
  ghost predicate InRun(times: seq<int>, s: Schedule, x: int)
    requires times != []
  {
    && x % s.everyMs == 0 && Aligned(times[0], s.everyMs) <= x
    && x <= Aligned(times[|times| - 1], s.everyMs) + (if |times| > 1 then s.everyMs else 0)
  }

  lemma RunAttempts(times: seq<int>, s: Schedule, first: int, later: int, x: int)
    requires PassTimes(times, first, later) && Covered(s, first, later) && InRun(times, s, x)
    ensures Attempted(times, s.everyMs, x)
  {
    var n := |times| - 1;
    GaplessRun(times, s.everyMs, first, later);
    assert Attempted(times, s.everyMs, Aligned(times[n], s.everyMs) + (if n > 0 then s.everyMs else 0));
  }

  /** From recorded slots on the grid, with the first tick within one cadence of the boot pass and the
      later ones within two of each other, a run of one instance whose calls do not throw leaves
      every grid slot from its boot slot to the one after its last pass in the log, whatever other
      instances add in between. */
  lemma NoSlotMissing(schedules: seq<ScheduledEvent>, i: nat, befores: seq<seq<BusEvent>>, afters: seq<seq<BusEvent>>,
      times: seq<int>, first: int, later: int, x: int)
    requires i < |schedules| && PassRun(befores, afters, times, schedules[i].schedule, true)
    requires OnGrid(befores[0], schedules) && PassTimes(times, first, later)
    requires Covered(schedules[i].schedule, first, later)
    requires InRun(times, schedules[i].schedule, x)
    ensures HasTick(afters[|times| - 1], schedules[i].schedule.kind, x)
  {
    var s := schedules[i].schedule;
    BootReachesCurrent(befores[0], schedules, i, times[0]);
    RunAttempts(times, s, first, later, x);
    var k :| 0 <= k < |times| &&
      (x == Aligned(times[k], s.everyMs) || (k > 0 && x == Aligned(times[k], s.everyMs) + s.everyMs));
    AttemptPresent(befores, afters, times, s, k, x);
  }

  /** The passes of one instance, seen by each of its schedules. */
  ghost predicate FleetRun(befores: seq<seq<BusEvent>>, afters: seq<seq<BusEvent>>, times: seq<int>,
      schedules: seq<ScheduledEvent>, sure: seq<bool>)
    requires |sure| == |schedules|
  {
    forall j :: 0 <= j < |schedules| ==> PassRun(befores, afters, times, schedules[j].schedule, sure[j])
  }

  lemma FleetRunMore(befores: seq<seq<BusEvent>>, afters: seq<seq<BusEvent>>, times: seq<int>,
      schedules: seq<ScheduledEvent>, sure: seq<bool>, before: seq<BusEvent>, after: seq<BusEvent>, now: int)
    requires |sure| == |schedules| && FleetRun(befores, afters, times, schedules, sure)
    requires afters != [] && afters[|afters| - 1] <= before
    requires forall j :: 0 <= j < |schedules| ==>
      Reached(before, after, schedules[j].schedule.kind, TickSlots(schedules[j].schedule, now), sure[j])
    ensures FleetRun(befores + [before], afters + [after], times + [now], schedules, sure)
  {
    forall j | 0 <= j < |schedules|
      ensures PassRun(befores + [before], afters + [after], times + [now], schedules[j].schedule, sure[j])
    {
      OnePassMore(befores, afters, times, schedules[j].schedule, sure[j], before, after, now);
    }
  }

  lemma FleetRunCovers(befores: seq<seq<BusEvent>>, afters: seq<seq<BusEvent>>, times: seq<int>,
      schedules: seq<ScheduledEvent>, sure: seq<bool>, first: int, later: int)
    requires |sure| == |schedules| && FleetRun(befores, afters, times, schedules, sure)
    requires |befores| == |afters| == |times| && PassTimes(times, first, later) && OnGrid(befores[0], schedules)
    ensures forall j, x :: 0 <= j < |schedules| && sure[j]
                           && Covered(schedules[j].schedule, first, later) && InRun(times, schedules[j].schedule, x) ==>
      HasTick(afters[|times| - 1], schedules[j].schedule.kind, x)
    ensures forall j, x :: 0 <= j < |schedules| && Tight(schedules[j].schedule, first, later)
                           && AmongCurrents(times, schedules[j].schedule, x) ==>
      HasTick(afters[|times| - 1], schedules[j].schedule.kind, x)
  {
    forall j, x | 0 <= j < |schedules| && sure[j]
                  && Covered(schedules[j].schedule, first, later) && InRun(times, schedules[j].schedule, x)
      ensures HasTick(afters[|times| - 1], schedules[j].schedule.kind, x)
    {
      NoSlotMissing(schedules, j, befores, afters, times, first, later, x);
    }
    forall j, x | 0 <= j < |schedules| && Tight(schedules[j].schedule, first, later)
                  && AmongCurrents(times, schedules[j].schedule, x)
      ensures HasTick(afters[|times| - 1], schedules[j].schedule.kind, x)
    {
      NoCurrentSlotMissing(befores, afters, times, schedules[j].schedule, sure[j], first, later, x);
    }
  }
}
