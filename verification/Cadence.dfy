/** When the ticks of one scheduler leave no slot out: the interval it picks, and how far apart its passes
    may be. */
module Cadence {
  import opened Options
  import opened SlotMath

  function SmallestEvery(schedules: seq<Schedule>): (r: int)
    requires schedules != []
    ensures forall s :: s in schedules ==> r <= s.everyMs
    ensures exists s :: s in schedules && s.everyMs == r
  {
    if |schedules| == 1 then schedules[0].everyMs
    else
      var rest := SmallestEvery(schedules[1..]);
      if schedules[0].everyMs < rest then schedules[0].everyMs else rest
  }

  /** The constructor's interval: the smallest cadence, floored, unless overridden. */
  function TickInterval(schedules: seq<Schedule>, override: Option<int>): int {
    if override.Some? then override.value
    else
      var smallest := if schedules == [] then SCHEDULE_FLOOR_MS else SmallestEvery(schedules);
      if smallest > SCHEDULE_FLOOR_MS then smallest else SCHEDULE_FLOOR_MS
  }

  /** An override is taken as it is. Otherwise the interval is a second if there are no schedules or one of
      them is due at least that often, and else the least of their cadences. */
  lemma TickIntervalMeans(schedules: seq<Schedule>, override: Option<int>)
    ensures var interval := TickInterval(schedules, override);
      if override.Some? then interval == override.value
      else if schedules == [] || exists s :: s in schedules && s.everyMs <= 1000 then interval == 1000
      else (exists s :: s in schedules && s.everyMs == interval) && forall s :: s in schedules ==> interval <= s.everyMs
  {
    if schedules != [] {
      var smallest := SmallestEvery(schedules);
      assert exists s :: s in schedules && s.everyMs == smallest;
    }
  }

  lemma DefaultIntervalFits(schedules: seq<Schedule>, s: Schedule)
    requires s in schedules
    ensures TickInterval(schedules, None) <= s.everyMs <==> s.everyMs >= SCHEDULE_FLOOR_MS
    ensures TickInterval(schedules, None) >= SCHEDULE_FLOOR_MS
  {
  }

  /** Pass times of one scheduler: the boot pass, the first tick at most `first` after it, and later
      ticks at most `later` apart. */
  ghost predicate PassTimes(times: seq<int>, first: int, later: int) {
    && times != []
    && forall k :: 0 <= k < |times| - 1 ==> 0 <= times[k + 1] - times[k] <= if k == 0 then first else later
  }

  /** The slots a run has attempted: the boot pass the current slot, each tick the current and the next. */
  ghost predicate Attempted(times: seq<int>, everyMs: int, x: int)
    requires everyMs > 0
  {
    exists k :: 0 <= k < |times| &&
      (x == Aligned(times[k], everyMs) || (k > 0 && x == Aligned(times[k], everyMs) + everyMs))
  }

  /** Every grid slot from the boot slot to the latest attempted one has been attempted. */
  ghost predicate Gapless(times: seq<int>, everyMs: int)
    requires everyMs > 0 && times != []
  {
    forall x, y :: x % everyMs == 0 && Aligned(times[0], everyMs) <= x <= y && Attempted(times, everyMs, y) ==>
      Attempted(times, everyMs, x)
  }

  ghost predicate AlwaysGapless(everyMs: int, first: int, later: int)
    requires everyMs > 0
  {
    forall times: seq<int> | PassTimes(times, first, later) :: Gapless(times, everyMs)
  }

  /** Within two cadences the current slot advances by at most two. */
  lemma SlotAdvances(a: int, b: int, everyMs: int)
    requires everyMs > 0 && 0 <= b - a <= 2 * everyMs
    ensures var d := Aligned(b, everyMs) - Aligned(a, everyMs);
      (d == 0 || d == everyMs || d == 2 * everyMs) && (b - a <= everyMs ==> d <= everyMs)
  {
    var p, q := a / everyMs, b / everyMs;
    assert p * everyMs <= a < p * everyMs + everyMs;
    assert q * everyMs <= b < q * everyMs + everyMs;
    if q < p { Multiples(q, p, everyMs); }
    assert (p + 1) * everyMs == p * everyMs + everyMs && (p + 2) * everyMs == p * everyMs + 2 * everyMs;
    if q > p + 2 { Multiples(p + 2, q, everyMs); }
  }

  /** Two grid points less than one step apart are the same. */
  lemma GridNeighbours(x: int, y: int, everyMs: int)
    requires everyMs > 0 && x % everyMs == 0 && y % everyMs == 0 && x <= y < x + everyMs
    ensures x == y
  {
    SlotContains(y, everyMs, x);
    SlotContains(y, everyMs, y);
  }

  lemma StillAttempted(times: seq<int>, everyMs: int, x: int)
    requires everyMs > 0 && times != [] && Attempted(times[..|times| - 1], everyMs, x)
    ensures Attempted(times, everyMs, x)
  {
    var before := times[..|times| - 1];
    var k :| 0 <= k < |before| &&
      (x == Aligned(before[k], everyMs) || (k > 0 && x == Aligned(before[k], everyMs) + everyMs));
    assert times[k] == before[k];
  }

  /** A grid point between the current slot and two cadences later is one of three. */
  lemma BetweenSlots(last: int, x: int, everyMs: int)
    requires everyMs > 0 && last % everyMs == 0 && x % everyMs == 0 && last <= x <= last + 2 * everyMs
    ensures x == last || x == last + everyMs || x == last + 2 * everyMs
  {
    SameResidue(last + everyMs, last, 1, everyMs);
    SameResidue(last + 2 * everyMs, last, 2, everyMs);
    if x < last + everyMs { GridNeighbours(last, x, everyMs); }
    else if x < last + 2 * everyMs { GridNeighbours(last + everyMs, x, everyMs); }
  }

  lemma {:induction false} CurrentCovered(times: seq<int>, everyMs: int, first: int, later: int, x: int)
    requires everyMs > 0 && first <= everyMs && later <= 2 * everyMs && PassTimes(times, first, later)
    requires x % everyMs == 0 && Aligned(times[0], everyMs) <= x <= Aligned(times[|times| - 1], everyMs)
    ensures Attempted(times, everyMs, x)
    decreases |times|
  {
    var n := |times| - 1;
    var last := Aligned(times[n], everyMs);
    if x == last {
      assert x == Aligned(times[n], everyMs);
    } else {
      var prev := Aligned(times[n - 1], everyMs);
      SlotAdvances(times[n - 1], times[n], everyMs);
      SlotContains(times[n - 1], everyMs, prev);
      if x > prev {
        BetweenSlots(prev, x, everyMs);
        assert x == prev + everyMs && n - 1 > 0;
        assert Attempted(times, everyMs, x);
      } else {
        CurrentCovered(times[..n], everyMs, first, later, x);
        StillAttempted(times, everyMs, x);
      }
    }
  }

  lemma {:induction false} SlotsMonotone(times: seq<int>, first: int, later: int, everyMs: int, k: int)
    requires everyMs > 0 && PassTimes(times, first, later) && 0 <= k < |times|
    ensures Aligned(times[k], everyMs) <= Aligned(times[|times| - 1], everyMs)
    decreases |times|
  {
    var n := |times| - 1;
    if k < n {
      SlotsMonotone(times[..n], first, later, everyMs, k);
      assert times[n - 1] / everyMs <= times[n] / everyMs by { Quotients(times[n - 1], times[n], everyMs); }
      if times[n - 1] / everyMs < times[n] / everyMs { Multiples(times[n - 1] / everyMs, times[n] / everyMs, everyMs); }
    }
  }

  lemma Quotients(a: int, b: int, d: int)
    requires d > 0 && a <= b
    ensures a / d <= b / d
  {
    assert a == a / d * d + a % d && b == b / d * d + b % d;
    if a / d > b / d { Multiples(b / d, a / d, d); }
  }

  lemma GaplessRun(times: seq<int>, everyMs: int, first: int, later: int)
    requires everyMs > 0 && first <= everyMs && later <= 2 * everyMs && PassTimes(times, first, later)
    ensures Gapless(times, everyMs)
  {
    var n := |times| - 1;
    var last := Aligned(times[n], everyMs);
    SlotContains(times[n], everyMs, last);
    forall x, y | x % everyMs == 0 && Aligned(times[0], everyMs) <= x <= y && Attempted(times, everyMs, y)
      ensures Attempted(times, everyMs, x)
    {
      var k :| 0 <= k < |times| &&
        (y == Aligned(times[k], everyMs) || (k > 0 && y == Aligned(times[k], everyMs) + everyMs));
      SlotsMonotone(times, first, later, everyMs, k);
      if x <= last {
        CurrentCovered(times, everyMs, first, later, x);
      } else {
        NextGridPoint(last, x, everyMs);
        assert n > 0 && x == Aligned(times[n], everyMs) + everyMs;
      }
    }
  }

  /** Passes at most one cadence apart visit every slot between the current ones of pass m and the last. */
  lemma {:induction false} VisitsSlot(times: seq<int>, everyMs: int, m: nat, first: int, later: int, x: int)
    returns (k: nat)
    requires everyMs > 0 && PassTimes(times, first, later) && m < |times|
    requires later <= everyMs && (m == 0 ==> first <= everyMs)
    requires x % everyMs == 0 && Aligned(times[m], everyMs) <= x <= Aligned(times[|times| - 1], everyMs)
    ensures m <= k < |times| && Aligned(times[k], everyMs) == x
    decreases |times|
  {
    var n := |times| - 1;
    k := n;
    if x != Aligned(times[n], everyMs) {
      var prev := Aligned(times[n - 1], everyMs);
      SlotAdvances(times[n - 1], times[n], everyMs);
      SlotContains(times[n - 1], everyMs, prev);
      if x > prev { BetweenSlots(prev, x, everyMs); }
      k := VisitsSlot(times[..n], everyMs, m, first, later, x);
    }
  }

  lemma NextGridPoint(last: int, x: int, everyMs: int)
    requires everyMs > 0 && last % everyMs == 0 && x % everyMs == 0 && last < x <= last + everyMs
    ensures x == last + everyMs
  {
    SameResidue(last + everyMs, last, 1, everyMs);
    if x < last + everyMs { GridNeighbours(last, x, everyMs); }
  }

  /** Boot just before a slot ends, first tick more than one cadence later: the slot between is skipped. */
  lemma GapAfterBoot(everyMs: int, first: int, later: int)
    requires everyMs > 0 && first > everyMs
    ensures !AlwaysGapless(everyMs, first, later)
  {
    var times := [everyMs - 1, 2 * everyMs];
    assert PassTimes(times, first, later);
    SlotContains(everyMs - 1, everyMs, 0);
    MultipleMod(2, everyMs);
    SlotContains(2 * everyMs, everyMs, 2 * everyMs);
    MultipleMod(1, everyMs);
    assert times[1] == 2 * everyMs;
    assert Attempted(times, everyMs, 2 * everyMs);
    assert !Attempted(times, everyMs, everyMs);
    assert !Gapless(times, everyMs);
  }

  /** Tick just before a slot ends, next tick more than two cadences later: the second slot after is skipped. */
  lemma GapBetweenTicks(everyMs: int, first: int, later: int)
    requires everyMs > 0 && first >= 0 && later > 2 * everyMs
    ensures !AlwaysGapless(everyMs, first, later)
  {
    var times := [everyMs - 1, everyMs - 1, 3 * everyMs];
    assert PassTimes(times, first, later);
    SlotContains(everyMs - 1, everyMs, 0);
    MultipleMod(3, everyMs);
    SlotContains(3 * everyMs, everyMs, 3 * everyMs);
    MultipleMod(2, everyMs);
    assert times[2] == 3 * everyMs;
    assert Attempted(times, everyMs, 3 * everyMs);
    assert !Attempted(times, everyMs, 2 * everyMs);
    assert !Gapless(times, everyMs);
  }

  /** A run leaves no slot out, whatever its clock does within these bounds, exactly when the first
      tick comes within one cadence of the boot pass and later ticks within two of each other: a
      tick also attempts the next slot, so ticks may drift by a whole cadence, the first one not. */
  lemma GaplessExactly(everyMs: int, first: int, later: int)
    requires everyMs > 0 && first >= 0
    ensures AlwaysGapless(everyMs, first, later) <==> first <= everyMs && later <= 2 * everyMs
  {
    if first > everyMs { GapAfterBoot(everyMs, first, later); }
    else if later > 2 * everyMs { GapBetweenTicks(everyMs, first, later); }
    else {
      forall times: seq<int> | PassTimes(times, first, later) ensures Gapless(times, everyMs) {
        GaplessRun(times, everyMs, first, later);
      }
    }
  }

  /** With the default interval and no drift exactly the schedules at or above the floor are gapless. */
  lemma DefaultGaplessExactly(schedules: seq<Schedule>, s: Schedule)
    requires s in schedules
    ensures AlwaysGapless(s.everyMs, TickInterval(schedules, None), TickInterval(schedules, None)) <==>
      s.everyMs >= SCHEDULE_FLOOR_MS
  {
    DefaultIntervalFits(schedules, s);
    GaplessExactly(s.everyMs, TickInterval(schedules, None), TickInterval(schedules, None));
  }

  /** A timer never fires early, so passes come late by some drift. Of the schedules with the smallest
      cadence none is safe from a first tick that is late at all, and all are from later ticks that
      are late by no more than the cadence. */
  lemma DriftTolerance(schedules: seq<Schedule>, s: Schedule, boot: nat, drift: nat)
    requires s in schedules && s.everyMs == TickInterval(schedules, None)
    ensures AlwaysGapless(s.everyMs, TickInterval(schedules, None) + boot, TickInterval(schedules, None) + drift)
      <==> boot == 0 && drift <= s.everyMs
  {
    GaplessExactly(s.everyMs, TickInterval(schedules, None) + boot, TickInterval(schedules, None) + drift);
  }
}
