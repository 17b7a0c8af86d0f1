/** The slots a catch-up pass materialises, from the newest recorded one to the current one, but no more
    of them than its cap allows. */
module Backfill {
  import opened Options
  import opened SlotMath

  /** from, from + step, … up to and including `to`: the slots the for loop visits. */
  function Progression(from: int, to: int, step: int): seq<int>
    requires step > 0
    decreases if from > to then 0 else to - from + 1
  {
    if from > to then [] else [from] + Progression(from + step, to, step)
  }

  /** The first slot of the loop. */
  function FirstSlot(last: Option<int>, current: int, everyMs: int, maxSlots: int): int
    requires everyMs > 0
  {
    var from := FirstMissed(last, current, everyMs);
    var total := (current - from) / everyMs + 1;
    if total > maxSlots then current - (maxSlots - 1) * everyMs else from
  }

  function FirstMissed(last: Option<int>, current: int, everyMs: int): int {
    var missed := if last.Some? then last.value + everyMs else current;
    if missed > current then current else missed
  }

  function BackfillSlots(last: Option<int>, current: int, everyMs: int, maxSlots: int): seq<int>
    requires everyMs > 0
  {
    Progression(FirstSlot(last, current, everyMs, maxSlots), current, everyMs)
  }

  lemma {:induction false} ProgressionShape(from: int, to: int, step: int)
    requires step > 0
    ensures var p := Progression(from, to, step);
      && |p| == (if from > to then 0 else (to - from) / step + 1)
      && (forall k :: 0 <= k < |p| ==>
            p[k] == from + k * step && p[k] <= to)
    decreases if from > to then 0 else to - from + 1
  {
    if from <= to {
      ProgressionShape(from + step, to, step);
      var p := Progression(from, to, step);
      var rest := Progression(from + step, to, step);
      if from + step <= to {
        QuotientUnique(to - from, step, (to - from - step) / step + 1);
      } else {
        QuotientUnique(to - from, step, 0);
      }
      forall k | 0 <= k < |p| ensures p[k] == from + k * step && p[k] <= to {
        if k > 0 { assert p[k] == rest[k - 1] && (k - 1) * step + step == k * step; }
      }
    }
  }

  lemma SmallMultiple(r: int, d: int)
    requires d > 0 && 0 <= r < d
    ensures r % d == 0 <==> r == 0
  {
    QuotientUnique(r, d, 0);
  }

  lemma {:induction false} ProgressionMember(from: int, to: int, step: int, x: int)
    requires step > 0
    ensures x in Progression(from, to, step) <==> from <= x <= to && (x - from) % step == 0
    decreases if from > to then 0 else to - from + 1
  {
    if from <= to {
      ProgressionMember(from + step, to, step, x);
      SameResidue(x - from, x - (from + step), 1, step);
      if from <= x < from + step { SmallMultiple(x - from, step); }
    }
  }

  /** Where the recorded slots end, seen from `current`: nothing at or below this is attempted. */
  function Lower(last: Option<int>, current: int, everyMs: int, maxSlots: int): int {
    var recorded := Recorded(last, current, everyMs);
    if current - maxSlots * everyMs > recorded then current - maxSlots * everyMs else recorded
  }

  function Recorded(last: Option<int>, current: int, everyMs: int): int {
    if last.Some? && last.value < current then last.value else current - everyMs
  }

  lemma SameGrid(x: int, y: int, d: int)
    requires d > 0 && y % d == 0
    ensures (x - y) % d == 0 <==> x % d == 0
  {
    assert y == y / d * d;
    if x % d == 0 {
      assert x == x / d * d;
      assert x - y == (x / d - y / d) * d;
      MultipleMod(x / d - y / d, d);
    }
    if (x - y) % d == 0 {
      assert x == y + (x - y) / d * d;
      SameResidue(x, y, (x - y) / d, d);
    }
  }

  lemma NextOnGrid(x: int, y: int, d: int)
    requires d > 0 && x % d == 0 && y % d == 0 && x < y
    ensures x + d <= y
  {
    assert x == x / d * d && y == y / d * d;
    if y / d < x / d { Multiples(y / d, x / d, d); }
    if x / d < y / d { Multiples(x / d, y / d, d); }
  }

  lemma MissedOnGrid(last: Option<int>, current: int, everyMs: int)
    requires everyMs > 0 && current % everyMs == 0 && (last.Some? ==> last.value % everyMs == 0)
    ensures FirstMissed(last, current, everyMs) == Recorded(last, current, everyMs) + everyMs
    ensures exists gap :: gap >= 1 && current - Recorded(last, current, everyMs) == gap * everyMs
  {
    if last.Some? && last.value < current {
      SameGrid(current, last.value, everyMs);
      var gap := (current - last.value) / everyMs;
      assert current - last.value == gap * everyMs;
      if gap <= 0 { Multiples(gap - 1, 0, everyMs); }
      else if gap > 1 { Multiples(1, gap, everyMs); }
    } else {
      assert current - Recorded(last, current, everyMs) == 1 * everyMs;
    }
  }

  /** Where the catch-up loop stands: n slots attempted, the next one is `slot`. */
  ghost predicate Standing(slots: seq<int>, n: nat, slot: int, current: int, everyMs: int)
    requires everyMs > 0
  {
    n <= |slots| && slots[n..] == Progression(slot, current, everyMs) && slot % everyMs == 0
  }

  lemma AllAttempted(slots: seq<int>, n: nat, slot: int, current: int, everyMs: int)
    requires everyMs > 0 && slot > current && Standing(slots, n, slot, current, everyMs)
    ensures n == |slots| && slots[..n] == slots
  {
  }

  /** One turn of the loop: the n-th slot is attempted, the progression goes on behind it. */
  lemma OneSlotOn(slots: seq<int>, n: nat, slot: int, current: int, everyMs: int)
    requires everyMs > 0 && slot <= current && Standing(slots, n, slot, current, everyMs)
    ensures n < |slots| && slots[..n + 1] == slots[..n] + [slot]
    ensures Standing(slots, n + 1, slot + everyMs, current, everyMs)
  {
    assert slots[n..][0] == slot;
    assert slots[n + 1..] == slots[n..][1..];
    SameResidue(slot + everyMs, slot, 1, everyMs);
  }

  lemma FirstSlotOnGrid(last: Option<int>, current: int, everyMs: int, maxSlots: int)
    requires everyMs > 0 && maxSlots >= 1 && current % everyMs == 0 && (last.Some? ==> last.value % everyMs == 0)
    ensures var from := FirstSlot(last, current, everyMs, maxSlots);
      from == Lower(last, current, everyMs, maxSlots) + everyMs && from % everyMs == 0
      && current - (maxSlots - 1) * everyMs <= from <= current
  {
    MissedOnGrid(last, current, everyMs);
    var gap :| gap >= 1 && current - Recorded(last, current, everyMs) == gap * everyMs;
    CapOnGrid(last, current, everyMs, maxSlots, gap);
    var n := if gap > maxSlots then maxSlots else gap;
    assert FirstSlot(last, current, everyMs, maxSlots) == current + (1 - n) * everyMs;
    SameResidue(FirstSlot(last, current, everyMs, maxSlots), current, 1 - n, everyMs);
  }

  /** Whatever the budget the start is on the grid. */
  lemma StartOnGrid(last: Option<int>, current: int, everyMs: int, maxSlots: int)
    requires everyMs > 0 && current % everyMs == 0 && (last.Some? ==> last.value % everyMs == 0)
    ensures FirstSlot(last, current, everyMs, maxSlots) % everyMs == 0
  {
    var from := FirstMissed(last, current, everyMs);
    if last.Some? { SameResidue(last.value + everyMs, last.value, 1, everyMs); }
    assert from % everyMs == 0;
    assert current - (maxSlots - 1) * everyMs == current + (1 - maxSlots) * everyMs;
    SameResidue(current + (1 - maxSlots) * everyMs, current, 1 - maxSlots, everyMs);
  }

  /** Without a budget nothing is attempted. */
  lemma NoBudget(last: Option<int>, current: int, everyMs: int, maxSlots: int)
    requires everyMs > 0 && maxSlots < 1
    ensures BackfillSlots(last, current, everyMs, maxSlots) == []
  {
    var from := FirstMissed(last, current, everyMs);
    var q := (current - from) / everyMs;
    assert q >= 0;
    Multiples(maxSlots - 1, 0, everyMs);
  }

  lemma CapOnGrid(last: Option<int>, current: int, everyMs: int, maxSlots: int, gap: int)
    requires everyMs > 0 && maxSlots >= 1 && gap >= 1
    requires current - Recorded(last, current, everyMs) == gap * everyMs
    requires FirstMissed(last, current, everyMs) == Recorded(last, current, everyMs) + everyMs
    ensures FirstSlot(last, current, everyMs, maxSlots) == Lower(last, current, everyMs, maxSlots) + everyMs
    ensures FirstSlot(last, current, everyMs, maxSlots) ==
      current + (1 - (if gap > maxSlots then maxSlots else gap)) * everyMs
    ensures FirstSlot(last, current, everyMs, maxSlots) >= current - (maxSlots - 1) * everyMs
  {
    var from := FirstMissed(last, current, everyMs);
    assert current - from == (gap - 1) * everyMs;
    QuotientUnique(current - from, everyMs, gap - 1);
    assert (maxSlots - 1) * everyMs == maxSlots * everyMs - everyMs;
    assert (gap - 1) * everyMs == gap * everyMs - everyMs;
    assert (1 - maxSlots) * everyMs == everyMs - maxSlots * everyMs;
    assert (1 - gap) * everyMs == everyMs - gap * everyMs;
    if gap > maxSlots { Multiples(maxSlots, gap, everyMs); }
    else if gap < maxSlots { Multiples(gap, maxSlots, everyMs); }
  }

  /** With the last recorded slot on the schedule's grid the pass attempts, in ascending order and
      each once, exactly the grid slots after it up to the current one, except that beyond
      maxCatchUpSlots the oldest are the ones dropped; with nothing to catch up it attempts the
      current slot. */
  lemma BackfillExactly(last: Option<int>, current: int, everyMs: int, maxSlots: int, x: int)
    requires everyMs > 0 && maxSlots >= 1 && current % everyMs == 0
    requires last.Some? ==> last.value % everyMs == 0
    ensures var slots := BackfillSlots(last, current, everyMs, maxSlots);
      && (x in slots <==>
            && x % everyMs == 0 && current - maxSlots * everyMs < x <= current
            && if last.Some? && last.value < current then last.value < x else current - everyMs < x)
      && |slots| <= maxSlots
      && forall j, k :: 0 <= j < k < |slots| ==> slots[j] < slots[k]
  {
    var from := FirstSlot(last, current, everyMs, maxSlots);
    var lower := Lower(last, current, everyMs, maxSlots);
    FirstSlotOnGrid(last, current, everyMs, maxSlots);
    ProgressionMember(from, current, everyMs, x);
    ProgressionShape(from, current, everyMs);
    SameGrid(x, from, everyMs);
    SameResidue(from, lower, 1, everyMs);
    if x % everyMs == 0 && lower < x { NextOnGrid(lower, x, everyMs); }
    var slots := BackfillSlots(last, current, everyMs, maxSlots);
    forall j, k | 0 <= j < k < |slots| ensures slots[j] < slots[k] { Multiples(j, k, everyMs); }
    AtMostMax(from, current, everyMs, maxSlots);
  }

  lemma AtMostMax(from: int, current: int, everyMs: int, maxSlots: int)
    requires everyMs > 0 && maxSlots >= 1 && from >= current - (maxSlots - 1) * everyMs
    ensures |Progression(from, current, everyMs)| <= maxSlots
  {
    ProgressionShape(from, current, everyMs);
    if from <= current {
      var q := (current - from) / everyMs;
      assert q * everyMs <= current - from;
      if q > maxSlots - 1 { Multiples(maxSlots - 1, q, everyMs); }
    }
  }

  /** From a last slot that may be off the grid, the pass reaches the current slot exactly when
      there is nothing to catch up, the cap rebases the start, or both are on one grid. */
  lemma HitsCurrentExactly(last: Option<int>, current: int, everyMs: int, maxSlots: int)
    requires everyMs > 0 && maxSlots >= 1
    ensures current in BackfillSlots(last, current, everyMs, maxSlots) <==>
      || last.None? || last.value + everyMs > current
      || (current - last.value - everyMs) / everyMs + 1 > maxSlots
      || (current - last.value) % everyMs == 0
  {
    var from := FirstSlot(last, current, everyMs, maxSlots);
    ProgressionMember(from, current, everyMs, current);
    assert (maxSlots - 1) * everyMs >= 0;
    MultipleMod(maxSlots - 1, everyMs);
    if last.Some? {
      SameResidue(current - last.value, current - last.value - everyMs, 1, everyMs);
    }
  }
}
