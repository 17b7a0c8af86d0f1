/** Fans one drained event out to its triggers, inside the per-event transaction. */
module OutboxDrainHook {
  import opened Options
  import opened BridgeTables
  import opened BridgeDatabase

  datatype DrainResult = DrainResult(delivered: nat, dedupSkips: nat, triggerCount: nat, auditBlocked: nat)

  /** What the hook reports when the event's transaction added `wrappers` wrapper runs: a routable
      event's triggers are all delivered or deduplicated, an event whose direction has no pool
      counts its triggers without serving any, an audit event reports nothing but the block. */
  function Counters(reg: Registry, e: Event, wrappers: int): DrainResult
    requires Routable(e) ==> 0 <= wrappers <= |TriggersOf(reg, e.kind)|
  {
    var n := |TriggersOf(reg, e.kind)|;
    if e.audit then DrainResult(0, 0, 0, if n > 0 then 1 else 0)
    else if Routable(e) then DrainResult(wrappers, n - wrappers, n, 0)
    else DrainResult(0, 0, n, 0)
  }

  /** One of the directions that have a pool. */
  predicate Directed(e: Event) {
    e.direction == Some("inbound") || e.direction == Some("change") || e.direction == Some("outbound")
  }

  class BridgeOutboxDrainHook {
    const registry: Registry
    var warnedNullDirection: bool
    var warnedAuditTypes: set<string>

    constructor (registry: Registry)
      ensures this.registry == registry && !warnedNullDirection && warnedAuditTypes == {}
    {
      this.registry := registry;
      warnedNullDirection := false;
      warnedAuditTypes := {};
    }

    /** The speculative half of one turn: Ok(true) when the delivery row was inserted. */
    method InsertPair(e: Event, pool: string, triggerId: string, db: Database)
      returns (r: Result<bool, DbError>, wrapperRunId: Id)
      requires db.Valid() && e.id in db.t.events
      modifies db
      ensures db.Valid() && r == Ok(!Taken(old(db.t), e.id, triggerId))
      ensures wrapperRunId == old(db.t.nextId) + 1 && wrapperRunId !in old(db.t.runs)
      ensures var n := old(db.t.nextId);
        db.t == old(db.t).(
          runs := old(db.t.runs)[wrapperRunId := WrapperRun(e, pool, n)],
          deliveries :=
            if r.value then old(db.t.deliveries)[n := PendingDelivery(e, triggerId, wrapperRunId)]
            else old(db.t.deliveries),
          nextId := n + 2)
      ensures r.value ==> old(db.t.nextId) !in old(db.t.deliveries)
    {
      var deliveryId := db.NewId();
      wrapperRunId := db.NewId();
      // The wrapper run goes in first: the delivery's foreign key points at it.
      var w := db.InsertRun(wrapperRunId, WrapperRun(e, pool, deliveryId));
      assert w.Ok?;
      r := db.InsertDelivery(deliveryId, PendingDelivery(e, triggerId, wrapperRunId));
    }

    lemma NothingPointsAtFreshRun(t: Tables, id: Id)
      requires ForeignKeys(t) && id !in t.runs
      ensures forall i :: i in t.deliveries ==>
        t.deliveries[i].wrapperRunId != Some(id) && t.deliveries[i].userRunId != Some(id)
    {
    }

    lemma OneMoreOfEach(t: Tables, e: Event, pool: string, triggerId: string)
      requires FreshIds(t)
      ensures var u := FanOutOne(t, e, pool, triggerId); var added := if Taken(t, e.id, triggerId) then 0 else 1;
        |u.runs| == |t.runs| + added && |u.deliveries| == |t.deliveries| + added
    {
    }

    /** One turn of the loop: Ok(true) when the trigger got its delivery and wrapper run. */
    method DeliverTrigger(e: Event, pool: string, triggerId: string, db: Database) returns (r: Result<bool, DbError>)
      requires db.Valid() && e.id in db.t.events
      modifies db
      ensures db.Valid() && r == Ok(!Taken(old(db.t), e.id, triggerId))
      ensures db.t == FanOutOne(old(db.t), e, pool, triggerId)
      ensures |db.t.runs| == |old(db.t).runs| + (if r.value then 1 else 0)
      ensures |db.t.deliveries| == |old(db.t).deliveries| + (if r.value then 1 else 0)
    {
      ghost var before := db.t;
      var wrapperRunId;
      r, wrapperRunId := InsertPair(e, pool, triggerId, db);
      if r == Ok(false) {
        // The trigger already has its row: remove the speculative wrapper run again.
        NothingPointsAtFreshRun(before, wrapperRunId);
        var d := db.DeleteRun(wrapperRunId);
        assert d.Ok?;
        assert db.t.runs == before.runs;
      }
      OneMoreOfEach(before, e, pool, triggerId);
    }

    method FanOutTriggers(e: Event, pool: string, triggers: seq<Trigger>, db: Database)
      returns (delivered: nat, dedupSkips: nat)
      requires db.Valid() && e.id in db.t.events
      modifies db
      ensures db.Valid() && delivered + dedupSkips == |triggers|
      ensures db.t == FanOut(old(db.t), e, pool, triggers)
      ensures |db.t.runs| == |old(db.t).runs| + delivered
      ensures |db.t.deliveries| == |old(db.t).deliveries| + delivered
    {
      delivered, dedupSkips := 0, 0;
      ghost var t0 := db.t;
      for i := 0 to |triggers|
        invariant db.Valid() && e.id in db.t.events
        invariant db.t == FanOut(t0, e, pool, triggers[..i])
        invariant delivered + dedupSkips == i
        invariant |db.t.runs| == |t0.runs| + delivered && |db.t.deliveries| == |t0.deliveries| + delivered
      {
        assert triggers[..i + 1][..i] == triggers[..i];
        var inserted := DeliverTrigger(e, pool, triggers[i].triggerId, db);
        if inserted.value { delivered := delivered + 1; } else { dedupSkips := dedupSkips + 1; }
      }
      assert triggers[..|triggers|] == triggers;
    }

    /** Each trigger either gets a wrapper and a delivery or is skipped as already in the ledger. */
    method ProcessEvent(e: Event, db: Database) returns (r: Result<DrainResult, DbError>)
      requires db.Valid() && e.id in db.t.events
      modifies this, db
      ensures db.Valid() && r.Ok?
      ensures db.t == HookEffect(registry, old(db.t), e)
      ensures Routable(e) ==> 0 <= |db.t.runs| - |old(db.t).runs| <= |TriggersOf(registry, e.kind)|
      ensures r.value == Counters(registry, e, |db.t.runs| - |old(db.t).runs|)
      ensures var n := if e.kind in registry then |registry[e.kind]| else 0;
        var added := |db.t.runs| - |old(db.t).runs|;
        && r.value.auditBlocked == (if e.audit && n > 0 then 1 else 0)
        && r.value.triggerCount == (if e.audit then 0 else n)
        && r.value.delivered == added && (added == 0 || (!e.audit && Directed(e)))
        && r.value.dedupSkips == (if !e.audit && Directed(e) then n - added else 0)
      ensures |db.t.deliveries| - |old(db.t).deliveries| == |db.t.runs| - |old(db.t).runs|
      ensures warnedNullDirection ==
        (old(warnedNullDirection) || (!e.audit && !Directed(e) && e.kind in registry && registry[e.kind] != []))
      ensures warnedAuditTypes ==
        old(warnedAuditTypes) + (if e.audit && e.kind in registry && registry[e.kind] != [] then {e.kind} else {})
    {
      var triggers := TriggersOf(registry, e.kind);
      if e.audit {
        if |triggers| > 0 {
          if e.kind !in warnedAuditTypes { warnedAuditTypes := warnedAuditTypes + {e.kind}; }
          return Ok(DrainResult(0, 0, 0, 1));
        }
        return Ok(DrainResult(0, 0, 0, 0));
      }
      if |triggers| == 0 {
        return Ok(DrainResult(0, 0, 0, 0));
      }
      var wrapperPool := WrapperPool(e.direction);
      if wrapperPool.None? {
        if !warnedNullDirection { warnedNullDirection := true; }
        return Ok(DrainResult(0, 0, |triggers|, 0));
      }
      assert Routable(e);
      ghost var before := db.t;
      var delivered, dedupSkips := FanOutTriggers(e, wrapperPool.value, triggers, db);
      assert db.t == HookEffect(registry, before, e);
      return Ok(DrainResult(delivered, dedupSkips, |triggers|, 0));
    }
  }
}
