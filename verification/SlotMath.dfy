/** Slot arithmetic of the scheduler, in integer milliseconds: the slot that holds an instant, aligned to
    multiples of the cadence or counted from an anchor. */
module SlotMath {
  /** parseEvery rejects anything that is not positive. */
  type Period = n: int | 0 < n witness 1

  datatype Schedule = Schedule(kind: string, everyMs: Period, catchUp: bool, maxCatchUpSlots: int)

  const SCHEDULE_FLOOR_MS := 1000

  /** Math.floor(at / every) * every; Dafny's division by a positive number is the floor. */
  function SlotStartFor(atMs: int, everyMs: int, align: bool, anchorMs: int): int
    requires everyMs > 0
  {
    if align then atMs / everyMs * everyMs
    else if atMs < anchorMs then anchorMs
    else anchorMs + (atMs - anchorMs) / everyMs * everyMs
  }

  function Aligned(atMs: int, everyMs: int): int
    requires everyMs > 0
  {
    SlotStartFor(atMs, everyMs, true, 0)
  }

  /** The aligned slot is the one multiple of everyMs whose slot contains the instant. */
  lemma SlotContains(atMs: int, everyMs: int, x: int)
    requires everyMs > 0
    ensures x == Aligned(atMs, everyMs) <==> x % everyMs == 0 && x <= atMs < x + everyMs
  {
    assert Aligned(atMs, everyMs) == atMs - atMs % everyMs;
    MultipleMod(atMs / everyMs, everyMs);
    if x % everyMs == 0 && x <= atMs < x + everyMs {
      assert x == x / everyMs * everyMs;
      QuotientUnique(atMs, everyMs, x / everyMs);
    }
  }

  /** The unaligned slot is the anchor before it, and from there the one point a whole number of cadences
      after the anchor whose slot contains the instant. */
  lemma UnalignedSlotContains(atMs: int, everyMs: int, anchorMs: int, x: int)
    requires everyMs > 0
    ensures x == SlotStartFor(atMs, everyMs, false, anchorMs) <==>
      if atMs < anchorMs then x == anchorMs else (x - anchorMs) % everyMs == 0 && x <= atMs < x + everyMs
  {
    SlotContains(atMs - anchorMs, everyMs, x - anchorMs);
  }

  lemma MultipleMod(q: int, d: int)
    requires d > 0
    ensures q * d % d == 0
  {
    QuotientUnique(q * d, d, q);
  }

  lemma Multiples(x: int, y: int, d: int)
    requires d > 0 && x < y
    ensures x * d + d <= y * d
  {
    assert y * d == (y - x - 1) * d + (x * d + d);
    assert (y - x - 1) * d >= 0;
  }

  lemma QuotientUnique(n: int, d: int, q: int)
    requires d > 0 && q * d <= n < q * d + d
    ensures n / d == q
  {
    var r := n / d;
    assert n == r * d + n % d;
    if r < q { Multiples(r, q, d); }
    if r > q { Multiples(q, r, d); }
  }

  lemma SameResidue(a: int, b: int, j: int, d: int)
    requires d > 0 && a == b + j * d
    ensures a % d == b % d
  {
    var q := b / d + j;
    assert q * d == b / d * d + j * d;
    QuotientUnique(a, d, q);
  }

  lemma CongruentAnchorsAgree(everyMs: int, a: int, b: int, atMs: int)
    requires everyMs > 0 && a % everyMs == b % everyMs && atMs >= a && atMs >= b
    ensures SlotStartFor(atMs, everyMs, false, a) == SlotStartFor(atMs, everyMs, false, b)
  {
    var j, q := a / everyMs - b / everyMs, (atMs - a) / everyMs;
    assert a - b == j * everyMs;
    assert q * everyMs <= atMs - a < q * everyMs + everyMs;
    assert (q + j) * everyMs == q * everyMs + j * everyMs;
    QuotientUnique(atMs - b, everyMs, q + j);
  }

  lemma AgreeingAnchorsCongruent(everyMs: int, a: int, b: int, atMs: int)
    requires everyMs > 0 && atMs >= a && atMs >= b
    requires SlotStartFor(atMs, everyMs, false, a) == SlotStartFor(atMs, everyMs, false, b)
    ensures a % everyMs == b % everyMs
  {
    var p, q := (atMs - a) / everyMs, (atMs - b) / everyMs;
    assert a + p * everyMs == b + q * everyMs;
    assert (q - p) * everyMs == q * everyMs - p * everyMs;
    SameResidue(a, b, q - p, everyMs);
  }

  /** Two unaligned schedulers agree on the slots from both their anchors on exactly when the
      anchors lie on one grid; `align: false` keys therefore differ between instances in general. */
  lemma AnchorsAgreeExactly(everyMs: int, a: int, b: int)
    requires everyMs > 0
    ensures (forall atMs :: atMs >= a && atMs >= b ==>
               SlotStartFor(atMs, everyMs, false, a) == SlotStartFor(atMs, everyMs, false, b))
      <==> a % everyMs == b % everyMs
  {
    if a % everyMs == b % everyMs {
      forall atMs | atMs >= a && atMs >= b
        ensures SlotStartFor(atMs, everyMs, false, a) == SlotStartFor(atMs, everyMs, false, b)
      {
        CongruentAnchorsAgree(everyMs, a, b, atMs);
      }
    } else {
      var m := if a < b then b else a;
      if SlotStartFor(m, everyMs, false, a) == SlotStartFor(m, everyMs, false, b) {
        AgreeingAnchorsCongruent(everyMs, a, b, m);
      }
    }
  }
}
