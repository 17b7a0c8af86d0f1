/** publish and publishAndStart. */
module EventFlow {
  import opened Options
  import opened BridgeTables
  import opened BridgeInvariant
  import opened BridgeDatabase

  class EventFlowService {
    const registry: Registry

    constructor (registry: Registry)
      ensures this.registry == registry
    {
      this.registry := registry;
    }

    method Publish(db: Database, e: Event) returns (r: Result<(), DbError>)
      requires db.Valid()
      modifies db
      ensures db.Valid()
      ensures r.Ok? <==> e.id !in old(db.t.events) && (e.audit <==> e.pool.None? && e.direction.None?)
      ensures db.t == if r.Ok? then InsertEvent(old(db.t), e) else old(db.t)
    {
      r := db.InsertEvent(e);
    }

    /** One pre-write per matching trigger; the unique key makes a duplicate a no-op. */
    method PreWriteAll(db: Database, eventId: Id, runId: Id, triggers: seq<Trigger>)
      requires db.Valid() && eventId in db.t.events && runId in db.t.runs
      modifies db
      ensures db.Valid()
      ensures db.t == PreWrite(old(db.t), eventId, runId, triggers)
    {
      ghost var t0 := db.t;
      for k := 0 to |triggers|
        invariant db.Valid() && eventId in db.t.events && runId in db.t.runs
        invariant db.t == PreWrite(t0, eventId, runId, triggers[..k])
      {
        assert triggers[..k + 1][..k] == triggers[..k];
        var id := db.NewId();
        var d := EagerDelivery(eventId, triggers[k].triggerId, runId);
        var inserted := db.InsertDelivery(id, d);
        assert inserted.Ok?;
      }
      assert triggers[..|triggers|] == triggers;
    }

    /** All three writes commit together or none does. `startFails` is a throw of the orchestrator. */
    method PublishAndStart(db: Database, e: Event, jobType: string, startFails: bool) returns (r: Result<Id, DbError>)
      requires db.Valid()
      modifies db
      ensures db.Valid()
      ensures r.Ok? <==> e.id !in old(db.t.events) && (e.audit <==> e.pool.None? && e.direction.None?) && !startFails
      ensures r.Ok? ==> r.value == old(db.t.nextId) && db.t == EagerTx(registry, old(db.t), e, jobType)
      ensures r.Err? ==> db.t == old(db.t)
    {
      var matchingTriggers := Matching(TriggersOf(registry, e.kind), jobType);
      var snapshot := db.t;
      var published := db.InsertEvent(e);
      if published.Err? {
        db.Rollback(snapshot);
        return Err(published.error);
      }
      if startFails {
        db.Rollback(snapshot);
        return Err(Infrastructure);
      }
      var runId := db.NewId();
      var run := db.InsertRun(runId, JobRun(jobType, e.id, Eager));
      assert run.Ok?;
      PreWriteAll(db, e.id, runId, matchingTriggers);
      r := Ok(runId);
    }
  }

  /** After a committed publishAndStart the drain of that event creates no wrapper for any trigger
      that names the started job, whatever else it fans out to. */
  lemma DrainSkipsEagerTriggers(reg: Registry, t: Tables, e: Event, jobType: string, now: int, x: Trigger)
    requires Committed(reg, t) && CanInsertEvent(t, e)
    requires x in TriggersOf(reg, e.kind) && x.jobType == jobType
    ensures var u := DrainTx(reg, EagerTx(reg, t, e, jobType), e, now);
      forall i :: i in u.deliveries && u.deliveries[i].eventId == e.id && u.deliveries[i].triggerId == x.triggerId ==>
        u.deliveries[i].wrapperRunId.None?
  {
    var a := EagerTx(reg, t, e, jobType);
    EagerTxKeeps(reg, t, e, jobType);
    PreWriteFrame(WithEagerRun(t, e, jobType), e.id, t.nextId, Matching(TriggersOf(reg, e.kind), jobType));
    DrainTxConsistent(reg, a, e, now);
    var u := DrainTx(reg, a, e, now);
    assert x in Matching(TriggersOf(reg, e.kind), jobType);
    EagerTxPreempted(reg, t, e, jobType, e.id, x.triggerId);
    DrainTxPreempted(reg, a, e, now, e.id, x.triggerId);
  }

  lemma {:induction false} PreWritesOnly(t: Tables, eventId: Id, runId: Id, triggers: seq<Trigger>)
    requires FreshIds(t)
    ensures var u := PreWrite(t, eventId, runId, triggers);
      && (forall i :: i in t.deliveries ==> i in u.deliveries && u.deliveries[i] == t.deliveries[i])
      && (forall i :: i in u.deliveries && i !in t.deliveries ==>
            u.deliveries[i] == Delivery(eventId, u.deliveries[i].triggerId, None, Some(runId), Delivered, None))
  {
    if triggers != [] {
      var n := |triggers| - 1;
      PreWritesOnly(t, eventId, runId, triggers[..n]);
      PreWriteFrame(t, eventId, runId, triggers[..n]);
    }
  }

  /** A ledger row for this trigger of this event. */
  ghost predicate Listed(t: Tables, eventId: Id, triggerId: string) {
    exists i :: i in t.deliveries && t.deliveries[i].eventId == eventId && t.deliveries[i].triggerId == triggerId
  }

  ghost predicate NamesJob(reg: Registry, kind: string, triggerId: string, jobType: string) {
    kind in reg && exists x :: x in reg[kind] && x.triggerId == triggerId && x.jobType == jobType
  }

  /** A committed publishAndStart adds the pending event, one run of the job that refers to it, and a
      delivered row for exactly the trigger ids of the event that name the job, each pointing at the run. */
  lemma EagerPublishSpelledOut(reg: Registry, t: Tables, e: Event, jobType: string)
    requires FreshIds(t) && ForeignKeys(t) && CanInsertEvent(t, e)
    ensures var u := EagerTx(reg, t, e, jobType);
      && u.events == t.events[e.id := EventRow(e, None)]
      && u.runs == t.runs[t.nextId := JobRun(jobType, e.id, Eager)] && t.nextId !in t.runs
      && (forall i :: i in t.deliveries ==> i in u.deliveries && u.deliveries[i] == t.deliveries[i])
      && (forall i :: i in u.deliveries && i !in t.deliveries ==>
            u.deliveries[i] == Delivery(e.id, u.deliveries[i].triggerId, None, Some(t.nextId), Delivered, None))
      && (forall triggerId :: Listed(u, e.id, triggerId) <==> NamesJob(reg, e.kind, triggerId, jobType))
  {
    var b := WithEagerRun(t, e, jobType);
    var m := Matching(TriggersOf(reg, e.kind), jobType);
    PreWriteFrame(b, e.id, t.nextId, m);
    PreWritesOnly(b, e.id, t.nextId, m);
    forall triggerId
      ensures Listed(EagerTx(reg, t, e, jobType), e.id, triggerId) <==> NamesJob(reg, e.kind, triggerId, jobType)
    {
      PreWriteTaken(b, e.id, t.nextId, m, e.id, triggerId);
      var u := EagerTx(reg, t, e, jobType);
      assert Taken(u, e.id, triggerId) <==> Listed(u, e.id, triggerId);
      if NamesJob(reg, e.kind, triggerId, jobType) {
        var x :| x in reg[e.kind] && x.triggerId == triggerId && x.jobType == jobType;
        assert x in m;
      }
    }
  }
}
