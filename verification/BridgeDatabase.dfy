/** The database the bridge services share: statements over the tables, each checking the
    constraints the schema declares. */
module BridgeDatabase {
  import opened Options
  import opened BridgeTables
  import opened BridgeInvariant
  import opened OutboxClaim

  datatype DbError = PrimaryKey | ForeignKey | Check | Infrastructure

  class Database {
    var t: Tables

    constructor ()
      ensures t == EMPTY && Valid()
    {
      t := EMPTY;
    }

    /** Holds after every statement, inside transactions too: no delivery points at a missing run. */
    ghost predicate Valid()
      reads this
    {
      FreshIds(t) && ForeignKeys(t) && UniqueKey(t)
    }

    method NewId() returns (id: Id)
      requires Valid()
      modifies this
      ensures Valid()
      ensures id == old(t.nextId) && t == old(t).(nextId := id + 1)
      ensures id !in t.runs && id !in t.deliveries
    {
      id := t.nextId;
      t := t.(nextId := id + 1);
    }

    method InsertEvent(e: Event) returns (r: Result<(), DbError>)
      requires Valid()
      modifies this
      ensures Valid()
      ensures r.Ok? <==> CanInsertEvent(old(t), e)
      ensures r.Ok? <==> e.id !in old(t).events && (e.audit <==> e.pool.None? && e.direction.None?)
      ensures t == if r.Ok? then BridgeTables.InsertEvent(old(t), e) else old(t)
      ensures r.Ok? ==> t == old(t).(events := old(t).events[e.id := EventRow(e, None)])
    {
      if e.id in t.events { return Err(PrimaryKey); }
      if !TierRoutingCheck(e) { return Err(Check); }
      t := t.(events := t.events[e.id := EventRow(e, None)]);
      r := Ok(());
    }

    method InsertRun(id: Id, run: JobRun) returns (r: Result<(), DbError>)
      requires Valid() && id < t.nextId
      modifies this
      ensures Valid()
      ensures r.Ok? <==> id !in old(t.runs)
      ensures t == if r.Ok? then old(t).(runs := old(t.runs)[id := run]) else old(t)
    {
      if id in t.runs { return Err(PrimaryKey); }
      t := t.(runs := t.runs[id := run]);
      r := Ok(());
    }

    method DeleteRun(id: Id) returns (r: Result<(), DbError>)
      requires Valid()
      modifies this
      ensures Valid()
      ensures r.Ok? <==> forall i :: i in old(t.deliveries) ==>
        old(t.deliveries[i].wrapperRunId) != Some(id) && old(t.deliveries[i].userRunId) != Some(id)
      ensures t == if r.Ok? then old(t).(runs := old(t.runs) - {id}) else old(t)
    {
      if exists i ::
          i in t.deliveries && (t.deliveries[i].wrapperRunId == Some(id) || t.deliveries[i].userRunId == Some(id))
      {
        return Err(ForeignKey);
      }
      t := t.(runs := t.runs - {id});
      r := Ok(());
    }

    /** INSERT … ON CONFLICT (event_id, trigger_id) DO NOTHING; Ok(false) is an empty RETURNING. */
    method InsertDelivery(id: Id, d: Delivery) returns (r: Result<bool, DbError>)
      requires Valid() && id < t.nextId && id !in t.deliveries
      modifies this
      ensures Valid()
      ensures r.Ok? <==> Taken(old(t), d.eventId, d.triggerId) || References(old(t), d)
      ensures r.Ok? ==> r.value == !Taken(old(t), d.eventId, d.triggerId)
      ensures r.Ok? ==>
        (!r.value <==> exists i :: i in old(t).deliveries
                                   && old(t).deliveries[i].eventId == d.eventId
                                   && old(t).deliveries[i].triggerId == d.triggerId)
      ensures t == if r == Ok(true) then old(t).(deliveries := old(t.deliveries)[id := d]) else old(t)
    {
      if Taken(t, d.eventId, d.triggerId) { return Ok(false); }
      if !References(t, d) { return Err(ForeignKey); }
      t := t.(deliveries := t.deliveries[id := d]);
      r := Ok(true);
    }

    /** SELECT … WHERE pending and due [and in the pools] ORDER BY occurred_at LIMIT 50 FOR UPDATE SKIP
        LOCKED, while the rows in `locked` are locked by others. Whatever is locked there is a legal
        answer, and it is empty only if nothing unlocked is ready. */
    method SelectReady(pools: seq<string>, now: int, locked: set<Id>) returns (rows: seq<Event>)
      requires EventsKeyed(t)
      ensures IsClaim(t, pools, now, locked, rows)
      ensures rows == [] <==> forall id :: Ready(t, pools, now, id) ==> id in locked
    {
      var left := set id | id in t.events && Ready(t, pools, now, id) && id !in locked;
      rows := [];
      while |rows| < POLL_BATCH_SIZE && left != {}
        invariant |rows| <= POLL_BATCH_SIZE
        invariant forall id :: id in left ==> Ready(t, pools, now, id) && id !in locked && !Claims(rows, id)
        invariant forall id :: Ready(t, pools, now, id) && id !in locked && !Claims(rows, id) ==> id in left
        invariant forall k :: 0 <= k < |rows| ==>
          Ready(t, pools, now, rows[k].id) && rows[k].id !in locked && t.events[rows[k].id].event == rows[k]
        invariant forall j, k :: 0 <= j < k < |rows| ==>
          rows[j].id != rows[k].id && rows[j].occurredAt <= rows[k].occurredAt
        invariant forall id, k :: id in left && 0 <= k < |rows| ==> rows[k].occurredAt <= t.events[id].event.occurredAt
        decreases left
      {
        var first := OldestRow(left);
        ghost var before := rows;
        rows := rows + [t.events[first].event];
        left := left - {first};
        forall id ensures Claims(rows, id) <==> Claims(before, id) || id == first {
          OneMoreClaimed(before, t.events[first].event, id);
        }
      }
      assert rows != [] ==> Ready(t, pools, now, rows[0].id);
    }

    method OldestRow(ids: set<Id>) returns (first: Id)
      requires ids != {} && ids <= t.events.Keys
      ensures first in ids
      ensures forall id :: id in ids ==> t.events[first].event.occurredAt <= t.events[id].event.occurredAt
    {
      first :| first in ids;
      var left := ids - {first};
      while left != {}
        invariant first in ids && left <= ids
        invariant forall id :: id in ids - left ==> t.events[first].event.occurredAt <= t.events[id].event.occurredAt
        decreases left
      {
        var id :| id in left;
        if t.events[id].event.occurredAt < t.events[first].event.occurredAt { first := id; }
        left := left - {id};
      }
    }

    method StampProcessed(id: Id, now: int)
      requires Valid()
      modifies this
      ensures Valid()
      ensures t == Stamp(old(t), id, now)
    {
      if id in t.events && t.events[id].Pending() {
        t := t.(events := t.events[id := t.events[id].(processedAt := Some(now))]);
      }
    }

    method Rollback(snapshot: Tables)
      requires FreshIds(snapshot) && ForeignKeys(snapshot) && UniqueKey(snapshot)
      modifies this
      ensures Valid() && t == snapshot
    {
      t := snapshot;
    }
  }

  lemma OneMoreClaimed(rows: seq<Event>, e: Event, id: Id)
    ensures Claims(rows + [e], id) <==> Claims(rows, id) || id == e.id
  {
    var all := rows + [e];
    assert all[|rows|] == e;
    if Claims(rows, id) {
      var k :| 0 <= k < |rows| && rows[k].id == id;
      assert all[k].id == id;
    }
    if Claims(all, id) {
      var k :| 0 <= k < |all| && all[k].id == id;
      assert k < |rows| ==> rows[k].id == id;
    }
  }

  /** The rows a delivery points at exist. */
  predicate References(t: Tables, d: Delivery) {
    && d.eventId in t.events
    && (d.wrapperRunId.Some? ==> d.wrapperRunId.value in t.runs)
    && (d.userRunId.Some? ==> d.userRunId.value in t.runs)
  }
}
