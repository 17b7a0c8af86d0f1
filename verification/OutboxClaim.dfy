/** Which outbox rows one drain cycle may claim. */
module OutboxClaim {
  import opened Options
  import opened BridgeTables

  const POLL_BATCH_SIZE: nat := 50

  /** No pool list means every pool; a row without a pool matches no list. */
  predicate InPools(pools: seq<string>, e: Event) {
    pools == [] || (e.pool.Some? && e.pool.value in pools)
  }

  /** status = 'pending' AND occurred_at <= now [AND pool IN pools]. */
  predicate Ready(t: Tables, pools: seq<string>, now: int, id: Id) {
    && id in t.events && t.events[id].Pending()
    && t.events[id].event.occurredAt <= now
    && InPools(pools, t.events[id].event)
  }

  predicate Claims(rows: seq<Event>, id: Id) {
    exists k :: 0 <= k < |rows| && rows[k].id == id
  }

  /** A legal answer of SELECT … ORDER BY occurred_at LIMIT 50 FOR UPDATE SKIP LOCKED while the
      rows in `locked` are locked by other transactions. Ties may come in any order. */
  ghost predicate IsClaim(t: Tables, pools: seq<string>, now: int, locked: set<Id>, rows: seq<Event>) {
    && |rows| <= POLL_BATCH_SIZE
    && (forall k :: 0 <= k < |rows| ==>
          && Ready(t, pools, now, rows[k].id) && rows[k].id !in locked
          && t.events[rows[k].id].event == rows[k])
    && (forall j, k :: 0 <= j < k < |rows| ==> rows[j].id != rows[k].id && rows[j].occurredAt <= rows[k].occurredAt)
    && (forall id :: Ready(t, pools, now, id) && id !in locked && !Claims(rows, id) ==>
          |rows| == POLL_BATCH_SIZE && forall k :: 0 <= k < |rows| ==>
            rows[k].occurredAt <= t.events[id].event.occurredAt)
  }

  /** The row is pending, due, in one of the pools if there is a list of them, and locked by nobody else. */
  ghost predicate Claimable(t: Tables, pools: seq<string>, now: int, locked: set<Id>, id: Id) {
    && id in t.events && id !in locked && t.events[id].processedAt.None? && t.events[id].event.occurredAt <= now
    && (pools == [] || exists k :: 0 <= k < |pools| && t.events[id].event.pool == Some(pools[k]))
  }

  /** A claim takes at most fifty claimable rows, each once, in the order of occurredAt, and leaves none
      unless it took fifty that are no younger. */
  lemma ClaimSpelledOut(t: Tables, pools: seq<string>, now: int, locked: set<Id>, rows: seq<Event>)
    ensures IsClaim(t, pools, now, locked, rows) <==>
      && |rows| <= 50
      && (forall k :: 0 <= k < |rows| ==>
            Claimable(t, pools, now, locked, rows[k].id) && t.events[rows[k].id].event == rows[k])
      && (forall j, k :: 0 <= j < k < |rows| ==>
            rows[j].id != rows[k].id && rows[j].occurredAt <= rows[k].occurredAt)
      && (forall id :: Claimable(t, pools, now, locked, id) && (forall k :: 0 <= k < |rows| ==> rows[k].id != id) ==>
            |rows| == 50 && forall k :: 0 <= k < |rows| ==> rows[k].occurredAt <= t.events[id].event.occurredAt)
  {
    forall id ensures Claimable(t, pools, now, locked, id) <==> Ready(t, pools, now, id) && id !in locked {
      ClaimableMeans(t, pools, now, locked, id);
    }
  }

  lemma ClaimableMeans(t: Tables, pools: seq<string>, now: int, locked: set<Id>, id: Id)
    ensures Claimable(t, pools, now, locked, id) <==> Ready(t, pools, now, id) && id !in locked
  {
    if Ready(t, pools, now, id) && pools != [] {
      var k :| 0 <= k < |pools| && pools[k] == t.events[id].event.pool.value;
    }
  }
}
