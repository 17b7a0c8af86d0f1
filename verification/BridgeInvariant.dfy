/** What every committed state of the four tables satisfies, whichever transactions have committed so
    far, and that each transaction of the bridge keeps it. */
module BridgeInvariant {
  import opened Options
  import opened BridgeTables

  // ---------------------------------------------------------------- the invariant

  ghost predicate UniqueKey(t: Tables) {
    forall i, j {:trigger t.deliveries[i].triggerId, t.deliveries[j].triggerId} |
      i in t.deliveries && j in t.deliveries
      && t.deliveries[i].eventId == t.deliveries[j].eventId && t.deliveries[i].triggerId == t.deliveries[j].triggerId ::
      i == j
  }

  /** `wrapper_run_id` and `input.deliveryId` are inverse to each other. */
  ghost predicate Bijection(t: Tables) {
    && (forall i :: i in t.deliveries && t.deliveries[i].wrapperRunId.Some? ==>
          var w := t.deliveries[i].wrapperRunId.value;
          && w in t.runs && t.runs[w].origin.Wrapper?
          && t.runs[w].origin.deliveryId == i && t.runs[w].triggerRef == t.deliveries[i].eventId)
    && (forall w :: w in t.runs && t.runs[w].origin.Wrapper? ==>
          && t.runs[w].origin.deliveryId in t.deliveries
          && t.deliveries[t.runs[w].origin.deliveryId].wrapperRunId == Some(w))
  }

  ghost predicate EagerRows(t: Tables) {
    forall i {:trigger t.deliveries[i].userRunId} {:trigger t.deliveries[i].status} ::
      i in t.deliveries && t.deliveries[i].wrapperRunId.None? ==>
      && t.deliveries[i].status == Delivered
      && t.deliveries[i].skipReason.None?
      && t.deliveries[i].userRunId.Some?
      && t.deliveries[i].userRunId.value in t.runs
      && t.runs[t.deliveries[i].userRunId.value].origin == Eager
      && t.runs[t.deliveries[i].userRunId.value].triggerRef == t.deliveries[i].eventId
  }

  ghost predicate EagerOnce(t: Tables) {
    && (forall r :: r in t.runs && t.runs[r].origin == Eager ==> t.runs[r].triggerRef in t.events)
    && (forall r, q {:trigger t.runs[r].triggerRef, t.runs[q].triggerRef} |
          r in t.runs && q in t.runs && t.runs[r].origin == Eager && t.runs[q].origin == Eager ::
          t.runs[r].triggerRef == t.runs[q].triggerRef ==> r == q)
  }

  ghost predicate BridgedParents(t: Tables) {
    && (forall r :: r in t.runs && t.runs[r].origin.Bridged? ==>
          t.runs[r].origin.parent in t.runs && t.runs[t.runs[r].origin.parent].origin.Wrapper?)
    && (forall w :: w in t.memo ==> t.memo[w] in t.runs && t.runs[t.memo[w]].origin == Bridged(w))
  }

  /** publishAndStart(event, jobType) has committed. */
  ghost predicate EagerJob(t: Tables, eventId: Id, jobType: string) {
    exists r :: r in t.runs && t.runs[r].origin == Eager && t.runs[r].triggerRef == eventId &&
      t.runs[r].jobType == jobType
  }

  /** The eager call pre-empted this trigger of the event. */
  ghost predicate Preempted(reg: Registry, t: Tables, eventId: Id, triggerId: string) {
    eventId in t.events &&
    exists x :: x in TriggersOf(reg, t.events[eventId].event.kind) && x.triggerId == triggerId &&
      EagerJob(t, eventId, x.jobType)
  }

  ghost predicate EagerRunsOwnTheirTriggers(reg: Registry, t: Tables) {
    && (forall id, trig: string :: Preempted(reg, t, id, trig) ==> Taken(t, id, trig))
    && (forall i :: i in t.deliveries && t.deliveries[i].wrapperRunId.Some? ==>
          !Preempted(reg, t, t.deliveries[i].eventId, t.deliveries[i].triggerId))
  }

  ghost predicate EventsKeyed(t: Tables) {
    forall id :: id in t.events ==> t.events[id].event.id == id && TierRoutingCheck(t.events[id].event)
  }

  /** Everything that holds after every single statement of a drain transaction. */
  ghost predicate Consistent(reg: Registry, t: Tables) {
    && FreshIds(t) && ForeignKeys(t) && UniqueKey(t) && Bijection(t) && EventsKeyed(t)
    && EagerRows(t) && EagerOnce(t) && BridgedParents(t)
    && EagerRunsOwnTheirTriggers(reg, t)
  }

  ghost predicate Registered(reg: Registry, kind: string, triggerId: string) {
    exists x :: x in TriggersOf(reg, kind) && x.triggerId == triggerId
  }

  /** The ledger rows an event must have: all registered triggers once it is processed (and
      routable), before that exactly those its eager publish wrote. */
  ghost predicate Owed(reg: Registry, t: Tables, id: Id, triggerId: string)
    requires id in t.events
  {
    || (!t.events[id].Pending() && Routable(t.events[id].event) && Registered(reg, t.events[id].event.kind, triggerId))
    || Preempted(reg, t, id, triggerId)
  }

  ghost predicate AllOrNothing(reg: Registry, t: Tables) {
    forall id, trig: string :: id in t.events ==> (Taken(t, id, trig) <==> Owed(reg, t, id, trig))
  }

  ghost predicate Committed(reg: Registry, t: Tables) {
    Consistent(reg, t) && AllOrNothing(reg, t)
  }

  // ---------------------------------------------------------------- framing

  /** Taken and EagerJob only look at these parts of the tables. */
  lemma SameRows(t: Tables, u: Tables, id: Id, trig: string)
    requires u.deliveries.Keys == t.deliveries.Keys
    requires forall i :: i in t.deliveries ==>
      u.deliveries[i].eventId == t.deliveries[i].eventId && u.deliveries[i].triggerId == t.deliveries[i].triggerId
    ensures Taken(u, id, trig) <==> Taken(t, id, trig)
  {
    if Taken(t, id, trig) {
      var i :| i in t.deliveries && t.deliveries[i].eventId == id && t.deliveries[i].triggerId == trig;
      assert i in u.deliveries;
    }
  }

  ghost predicate SameEagerRuns(t: Tables, u: Tables) {
    && (forall r :: r in t.runs ==> r in u.runs && u.runs[r] == t.runs[r])
    && (forall r :: r in u.runs && r !in t.runs ==> u.runs[r].origin != Eager)
  }

  lemma SameEager(t: Tables, u: Tables, id: Id, job: string)
    requires SameEagerRuns(t, u)
    ensures EagerJob(u, id, job) <==> EagerJob(t, id, job)
  {
    if EagerJob(t, id, job) {
      var r :| r in t.runs && t.runs[r].origin == Eager && t.runs[r].triggerRef == id && t.runs[r].jobType == job;
      assert r in u.runs && u.runs[r] == t.runs[r];
    }
  }

  lemma SamePreempted(reg: Registry, t: Tables, u: Tables, id: Id, trig: string)
    requires SameEagerRuns(t, u)
    requires id in t.events ==> id in u.events && u.events[id].event == t.events[id].event
    requires id in u.events ==> id in t.events
    ensures Preempted(reg, u, id, trig) <==> Preempted(reg, t, id, trig)
  {
    forall job: string ensures EagerJob(u, id, job) <==> EagerJob(t, id, job) { SameEager(t, u, id, job); }
  }

  // ---------------------------------------------------------------- publish

  lemma NoEagerBeforeInsert(t: Tables, id: Id, job: string)
    requires EagerOnce(t) && id !in t.events
    ensures !EagerJob(t, id, job)
  {
  }

  lemma InsertEventPreempted(reg: Registry, t: Tables, e: Event, id: Id, trig: string)
    requires EagerOnce(t) && e.id !in t.events
    ensures Preempted(reg, InsertEvent(t, e), id, trig) <==> Preempted(reg, t, id, trig)
    ensures id == e.id ==> !Preempted(reg, t, id, trig)
  {
    var u := InsertEvent(t, e);
    forall job: string ensures EagerJob(u, id, job) <==> EagerJob(t, id, job) { SameEager(t, u, id, job); }
    if id == e.id {
      forall job: string ensures !EagerJob(t, id, job) { NoEagerBeforeInsert(t, id, job); }
    }
  }

  lemma InsertEventRows(t: Tables, e: Event)
    requires CanInsertEvent(t, e)
    requires FreshIds(t) && ForeignKeys(t) && UniqueKey(t) && Bijection(t) && EventsKeyed(t)
    requires EagerRows(t) && EagerOnce(t) && BridgedParents(t)
    ensures var u := InsertEvent(t, e);
      && FreshIds(u) && ForeignKeys(u) && UniqueKey(u) && Bijection(u) && EventsKeyed(u)
      && EagerRows(u) && EagerOnce(u) && BridgedParents(u)
  {
  }

  lemma InsertEventOwners(reg: Registry, t: Tables, e: Event)
    requires EagerOnce(t) && e.id !in t.events && EagerRunsOwnTheirTriggers(reg, t)
    ensures EagerRunsOwnTheirTriggers(reg, InsertEvent(t, e))
  {
    var u := InsertEvent(t, e);
    forall id, trig: string
      ensures Preempted(reg, u, id, trig) <==> Preempted(reg, t, id, trig)
      ensures Taken(u, id, trig) <==> Taken(t, id, trig)
    {
      InsertEventPreempted(reg, t, e, id, trig);
      SameRows(t, u, id, trig);
    }
  }

  lemma InsertEventConsistent(reg: Registry, t: Tables, e: Event)
    requires Consistent(reg, t) && CanInsertEvent(t, e)
    ensures Consistent(reg, InsertEvent(t, e))
  {
    InsertEventRows(t, e);
    InsertEventOwners(reg, t, e);
  }

  lemma InsertEventKeeps(reg: Registry, t: Tables, e: Event)
    requires Committed(reg, t) && CanInsertEvent(t, e)
    ensures Committed(reg, InsertEvent(t, e))
  {
    var u := InsertEvent(t, e);
    InsertEventConsistent(reg, t, e);
    forall id, trig: string | id in u.events
      ensures Taken(u, id, trig) <==> Owed(reg, u, id, trig)
    {
      InsertEventPreempted(reg, t, e, id, trig);
      SameRows(t, u, id, trig);
      if id != e.id { assert Taken(t, id, trig) <==> Owed(reg, t, id, trig); }
    }
  }

  // ---------------------------------------------------------------- publishAndStart

  lemma InsertDeliveryTaken(t: Tables, d: Delivery, id: Id, trig: string)
    requires FreshIds(t)
    ensures Taken(InsertDelivery(t, d), id, trig) <==>
            Taken(t, id, trig) || (id == d.eventId && trig == d.triggerId)
  {
    var u := InsertDelivery(t, d);
    if Taken(t, id, trig) {
      var i :| i in t.deliveries && t.deliveries[i].eventId == id && t.deliveries[i].triggerId == trig;
      assert i in u.deliveries && u.deliveries[i] == t.deliveries[i];
    } else if id == d.eventId && trig == d.triggerId {
      assert t.nextId in u.deliveries;
    }
  }

  lemma {:induction false} PreWriteFrame(t: Tables, eventId: Id, runId: Id, triggers: seq<Trigger>)
    requires FreshIds(t)
    ensures var u := PreWrite(t, eventId, runId, triggers);
            FreshIds(u) && u.events == t.events && u.runs == t.runs && u.memo == t.memo
  {
    if triggers != [] { PreWriteFrame(t, eventId, runId, triggers[..|triggers| - 1]); }
  }

  lemma {:induction false} PreWriteTaken(t: Tables, eventId: Id, runId: Id, triggers: seq<Trigger>, id: Id,
      trig: string)
    requires FreshIds(t)
    ensures Taken(PreWrite(t, eventId, runId, triggers), id, trig) <==>
            Taken(t, id, trig) || (id == eventId && exists x :: x in triggers && x.triggerId == trig)
  {
    if triggers != [] {
      var n := |triggers| - 1;
      PreWriteFrame(t, eventId, runId, triggers[..n]);
      PreWriteTaken(t, eventId, runId, triggers[..n], id, trig);
      InsertDeliveryTaken(PreWrite(t, eventId, runId, triggers[..n]),
        EagerDelivery(eventId, triggers[n].triggerId, runId), id, trig);
      assert triggers == triggers[..n] + [triggers[n]];
    }
  }

  lemma EagerInsertRows(t: Tables, eventId: Id, runId: Id, triggerId: string)
    requires FreshIds(t) && ForeignKeys(t) && UniqueKey(t) && Bijection(t) && EagerRows(t)
    requires eventId in t.events && runId in t.runs && t.runs[runId].origin == Eager &&
      t.runs[runId].triggerRef == eventId
    ensures var u := InsertDelivery(t, EagerDelivery(eventId, triggerId, runId));
            ForeignKeys(u) && UniqueKey(u) && Bijection(u) && EagerRows(u)
  {
  }

  lemma {:induction false} PreWriteRows(t: Tables, eventId: Id, runId: Id, triggers: seq<Trigger>)
    requires FreshIds(t) && ForeignKeys(t) && UniqueKey(t) && Bijection(t) && EagerRows(t)
    requires eventId in t.events && runId in t.runs && t.runs[runId].origin == Eager &&
      t.runs[runId].triggerRef == eventId
    ensures var u := PreWrite(t, eventId, runId, triggers);
            FreshIds(u) && ForeignKeys(u) && UniqueKey(u) && Bijection(u) && EagerRows(u)
  {
    if triggers != [] {
      var n := |triggers| - 1;
      PreWriteRows(t, eventId, runId, triggers[..n]);
      PreWriteFrame(t, eventId, runId, triggers[..n]);
      EagerInsertRows(PreWrite(t, eventId, runId, triggers[..n]), eventId, runId, triggers[n].triggerId);
    }
  }

  /** Rows the pre-write adds have no wrapper. */
  lemma {:induction false} PreWriteAddsEagerRows(t: Tables, eventId: Id, runId: Id, triggers: seq<Trigger>)
    requires FreshIds(t)
    ensures var u := PreWrite(t, eventId, runId, triggers);
      && (forall i :: i in u.deliveries && u.deliveries[i].wrapperRunId.Some? ==>
            i in t.deliveries && t.deliveries[i] == u.deliveries[i])
  {
    if triggers != [] {
      var n := |triggers| - 1;
      PreWriteAddsEagerRows(t, eventId, runId, triggers[..n]);
      PreWriteFrame(t, eventId, runId, triggers[..n]);
    }
  }

  function WithEagerRun(t: Tables, e: Event, jobType: string): Tables {
    AddRun(InsertEvent(t, e), JobRun(jobType, e.id, Eager))
  }

  lemma AddRunRows(t: Tables, run: JobRun)
    requires !run.origin.Wrapper?
    requires FreshIds(t) && ForeignKeys(t) && UniqueKey(t) && Bijection(t) && EventsKeyed(t)
    ensures var u := AddRun(t, run);
            FreshIds(u) && ForeignKeys(u) && UniqueKey(u) && Bijection(u) && EventsKeyed(u)
  {
  }

  lemma AddEagerRun(t: Tables, eventId: Id, jobType: string)
    requires FreshIds(t) && EagerRows(t) && EagerOnce(t) && BridgedParents(t) && eventId in t.events
    requires forall r :: r in t.runs && t.runs[r].origin == Eager ==> t.runs[r].triggerRef != eventId
    ensures var u := AddRun(t, JobRun(jobType, eventId, Eager));
            EagerRows(u) && EagerOnce(u) && BridgedParents(u)
  {
  }

  lemma EagerRunRows(reg: Registry, t: Tables, e: Event, jobType: string)
    requires Consistent(reg, t) && CanInsertEvent(t, e)
    ensures var b := WithEagerRun(t, e, jobType);
      && FreshIds(b) && ForeignKeys(b) && UniqueKey(b) && Bijection(b) && EventsKeyed(b)
      && EagerRows(b) && EagerOnce(b) && BridgedParents(b)
  {
    InsertEventRows(t, e);
    AddRunRows(InsertEvent(t, e), JobRun(jobType, e.id, Eager));
    AddEagerRun(InsertEvent(t, e), e.id, jobType);
  }

  lemma EagerRunJobs(t: Tables, e: Event, jobType: string, id: Id, job: string)
    requires EagerOnce(t) && e.id !in t.events && FreshIds(t)
    ensures EagerJob(WithEagerRun(t, e, jobType), id, job) <==> EagerJob(t, id, job) || (id == e.id && job == jobType)
    ensures id == e.id ==> !EagerJob(t, id, job)
  {
    var b := WithEagerRun(t, e, jobType);
    if id == e.id && job == jobType { assert t.nextId in b.runs; }
    if EagerJob(t, id, job) {
      var r :| r in t.runs && t.runs[r].origin == Eager && t.runs[r].triggerRef == id && t.runs[r].jobType == job;
      assert r in b.runs && b.runs[r] == t.runs[r];
    }
  }

  lemma EagerTxPreempted(reg: Registry, t: Tables, e: Event, jobType: string, id: Id, trig: string)
    requires EagerOnce(t) && e.id !in t.events && FreshIds(t)
    ensures Preempted(reg, EagerTx(reg, t, e, jobType), id, trig) <==>
            if id == e.id then exists x :: x in Matching(TriggersOf(reg, e.kind), jobType) && x.triggerId == trig
            else Preempted(reg, t, id, trig)
  {
    var b := WithEagerRun(t, e, jobType);
    var m := Matching(TriggersOf(reg, e.kind), jobType);
    PreWriteFrame(b, e.id, t.nextId, m);
    var u := EagerTx(reg, t, e, jobType);
    forall job: string
      ensures EagerJob(u, id, job) <==> EagerJob(t, id, job) || (id == e.id && job == jobType)
      ensures id == e.id ==> !EagerJob(t, id, job)
    {
      EagerRunJobs(t, e, jobType, id, job);
      SameEager(b, u, id, job);
    }
  }

  lemma EagerTxTaken(reg: Registry, t: Tables, e: Event, jobType: string, id: Id, trig: string)
    requires FreshIds(t)
    ensures Taken(EagerTx(reg, t, e, jobType), id, trig) <==>
            || Taken(t, id, trig)
            || (id == e.id && exists x :: x in Matching(TriggersOf(reg, e.kind), jobType) && x.triggerId == trig)
  {
    var b := WithEagerRun(t, e, jobType);
    PreWriteTaken(b, e.id, t.nextId, Matching(TriggersOf(reg, e.kind), jobType), id, trig);
    SameRows(t, b, id, trig);
  }

  lemma EagerTxOwners(reg: Registry, t: Tables, e: Event, jobType: string)
    requires Consistent(reg, t) && CanInsertEvent(t, e)
    ensures EagerRunsOwnTheirTriggers(reg, EagerTx(reg, t, e, jobType))
  {
    var u := EagerTx(reg, t, e, jobType);
    var b := WithEagerRun(t, e, jobType);
    forall id, trig: string | Preempted(reg, u, id, trig) ensures Taken(u, id, trig) {
      EagerTxPreempted(reg, t, e, jobType, id, trig);
      EagerTxTaken(reg, t, e, jobType, id, trig);
    }
    PreWriteAddsEagerRows(b, e.id, t.nextId, Matching(TriggersOf(reg, e.kind), jobType));
    forall i | i in u.deliveries && u.deliveries[i].wrapperRunId.Some?
      ensures !Preempted(reg, u, u.deliveries[i].eventId, u.deliveries[i].triggerId)
    {
      assert i in t.deliveries && t.deliveries[i].eventId != e.id;
      EagerTxPreempted(reg, t, e, jobType, u.deliveries[i].eventId, u.deliveries[i].triggerId);
    }
  }

  lemma EagerTxConsistent(reg: Registry, t: Tables, e: Event, jobType: string)
    requires Consistent(reg, t) && CanInsertEvent(t, e)
    ensures Consistent(reg, EagerTx(reg, t, e, jobType))
  {
    var b := WithEagerRun(t, e, jobType);
    var m := Matching(TriggersOf(reg, e.kind), jobType);
    EagerRunRows(reg, t, e, jobType);
    PreWriteRows(b, e.id, t.nextId, m);
    PreWriteFrame(b, e.id, t.nextId, m);
    EagerTxOwners(reg, t, e, jobType);
  }

  lemma EagerTxKeeps(reg: Registry, t: Tables, e: Event, jobType: string)
    requires Committed(reg, t) && CanInsertEvent(t, e)
    ensures Committed(reg, EagerTx(reg, t, e, jobType))
  {
    EagerTxConsistent(reg, t, e, jobType);
    PreWriteFrame(WithEagerRun(t, e, jobType), e.id, t.nextId, Matching(TriggersOf(reg, e.kind), jobType));
    var u := EagerTx(reg, t, e, jobType);
    forall id, trig: string | id in u.events
      ensures Taken(u, id, trig) <==> Owed(reg, u, id, trig)
    {
      EagerTxTaken(reg, t, e, jobType, id, trig);
      EagerTxPreempted(reg, t, e, jobType, id, trig);
      if id != e.id { assert Taken(t, id, trig) <==> Owed(reg, t, id, trig); }
    }
  }

  // ---------------------------------------------------------------- the drain transaction

  lemma FanOutOneTaken(t: Tables, e: Event, pool: string, triggerId: string, id: Id, trig: string)
    requires FreshIds(t)
    ensures Taken(FanOutOne(t, e, pool, triggerId), id, trig) <==>
            Taken(t, id, trig) || (id == e.id && trig == triggerId)
  {
    var u := FanOutOne(t, e, pool, triggerId);
    if Taken(t, id, trig) {
      var i :| i in t.deliveries && t.deliveries[i].eventId == id && t.deliveries[i].triggerId == trig;
      assert i in u.deliveries && u.deliveries[i] == t.deliveries[i];
    } else if id == e.id && trig == triggerId {
      assert t.nextId in u.deliveries;
    }
  }

  lemma FanOutOneEager(t: Tables, e: Event, pool: string, triggerId: string, id: Id, job: string)
    requires FreshIds(t)
    ensures EagerJob(FanOutOne(t, e, pool, triggerId), id, job) <==> EagerJob(t, id, job)
  {
    var u := FanOutOne(t, e, pool, triggerId);
    if EagerJob(t, id, job) {
      var r :| r in t.runs && t.runs[r].origin == Eager && t.runs[r].triggerRef == id && t.runs[r].jobType == job;
      assert r in u.runs && u.runs[r] == t.runs[r];
    }
  }

  lemma FanOutOnePreempted(reg: Registry, t: Tables, e: Event, pool: string, triggerId: string, id: Id, trig: string)
    requires FreshIds(t)
    ensures Preempted(reg, FanOutOne(t, e, pool, triggerId), id, trig) <==> Preempted(reg, t, id, trig)
  {
    forall job: string { FanOutOneEager(t, e, pool, triggerId, id, job); }
  }

  lemma FanOutOneBijection(t: Tables, e: Event, pool: string, triggerId: string)
    requires FreshIds(t) && Bijection(t)
    ensures Bijection(FanOutOne(t, e, pool, triggerId))
  {
  }

  lemma FanOutOneRows(t: Tables, e: Event, pool: string, triggerId: string)
    requires FreshIds(t) && ForeignKeys(t) && UniqueKey(t) && Bijection(t) && e.id in t.events
    ensures var u := FanOutOne(t, e, pool, triggerId);
            FreshIds(u) && ForeignKeys(u) && UniqueKey(u) && Bijection(u)
  {
    FanOutOneBijection(t, e, pool, triggerId);
  }

  lemma FanOutOneRuns(t: Tables, e: Event, pool: string, triggerId: string)
    requires FreshIds(t) && EagerRows(t) && EagerOnce(t) && BridgedParents(t)
    ensures var u := FanOutOne(t, e, pool, triggerId);
            EagerRows(u) && EagerOnce(u) && BridgedParents(u)
  {
  }

  lemma FanOutOneOwners(reg: Registry, t: Tables, e: Event, pool: string, triggerId: string)
    requires FreshIds(t) && EagerRunsOwnTheirTriggers(reg, t)
    ensures EagerRunsOwnTheirTriggers(reg, FanOutOne(t, e, pool, triggerId))
  {
    var u := FanOutOne(t, e, pool, triggerId);
    forall id, trig: string | Preempted(reg, u, id, trig) ensures Taken(u, id, trig) {
      FanOutOnePreempted(reg, t, e, pool, triggerId, id, trig);
      FanOutOneTaken(t, e, pool, triggerId, id, trig);
    }
    forall i | i in u.deliveries && u.deliveries[i].wrapperRunId.Some?
      ensures !Preempted(reg, u, u.deliveries[i].eventId, u.deliveries[i].triggerId)
    {
      FanOutOnePreempted(reg, t, e, pool, triggerId, u.deliveries[i].eventId, u.deliveries[i].triggerId);
    }
  }

  lemma FanOutOneKeeps(reg: Registry, t: Tables, e: Event, pool: string, triggerId: string)
    requires Consistent(reg, t) && e.id in t.events
    ensures Consistent(reg, FanOutOne(t, e, pool, triggerId))
  {
    FanOutOneRows(t, e, pool, triggerId);
    FanOutOneRuns(t, e, pool, triggerId);
    FanOutOneOwners(reg, t, e, pool, triggerId);
  }

  lemma {:induction false} FanOutConsistent(reg: Registry, t: Tables, e: Event, pool: string, triggers: seq<Trigger>)
    requires Consistent(reg, t) && e.id in t.events
    ensures Consistent(reg, FanOut(t, e, pool, triggers))
    ensures FanOut(t, e, pool, triggers).events == t.events && FanOut(t, e, pool, triggers).memo == t.memo
  {
    if triggers != [] {
      var n := |triggers| - 1;
      FanOutConsistent(reg, t, e, pool, triggers[..n]);
      FanOutOneKeeps(reg, FanOut(t, e, pool, triggers[..n]), e, pool, triggers[n].triggerId);
    }
  }

  lemma {:induction false} FanOutFresh(t: Tables, e: Event, pool: string, triggers: seq<Trigger>)
    requires FreshIds(t)
    ensures FreshIds(FanOut(t, e, pool, triggers))
    ensures FanOut(t, e, pool, triggers).events == t.events
    ensures SameEagerRuns(t, FanOut(t, e, pool, triggers))
  {
    if triggers != [] { FanOutFresh(t, e, pool, triggers[..|triggers| - 1]); }
  }

  lemma {:induction false} FanOutTaken(t: Tables, e: Event, pool: string, triggers: seq<Trigger>, id: Id, trig: string)
    requires FreshIds(t)
    ensures Taken(FanOut(t, e, pool, triggers), id, trig) <==>
            Taken(t, id, trig) || (id == e.id && exists x :: x in triggers && x.triggerId == trig)
  {
    if triggers != [] {
      var n := |triggers| - 1;
      FanOutFresh(t, e, pool, triggers[..n]);
      FanOutTaken(t, e, pool, triggers[..n], id, trig);
      FanOutOneTaken(FanOut(t, e, pool, triggers[..n]), e, pool, triggers[n].triggerId, id, trig);
      assert triggers == triggers[..n] + [triggers[n]];
    }
  }

  lemma StampRows(t: Tables, id: Id, now: int)
    requires FreshIds(t) && ForeignKeys(t) && UniqueKey(t) && Bijection(t) && EventsKeyed(t)
    requires EagerRows(t) && EagerOnce(t) && BridgedParents(t)
    ensures var u := Stamp(t, id, now);
      && FreshIds(u) && ForeignKeys(u) && UniqueKey(u) && Bijection(u) && EventsKeyed(u)
      && EagerRows(u) && EagerOnce(u) && BridgedParents(u)
  {
  }

  lemma StampOwners(reg: Registry, t: Tables, id: Id, now: int)
    requires EagerRunsOwnTheirTriggers(reg, t)
    ensures EagerRunsOwnTheirTriggers(reg, Stamp(t, id, now))
  {
    var u := Stamp(t, id, now);
    forall i, trig: string
      ensures Preempted(reg, u, i, trig) <==> Preempted(reg, t, i, trig)
      ensures Taken(u, i, trig) <==> Taken(t, i, trig)
    {
      SamePreempted(reg, t, u, i, trig);
      SameRows(t, u, i, trig);
    }
  }

  lemma StampConsistent(reg: Registry, t: Tables, id: Id, now: int)
    requires Consistent(reg, t)
    ensures Consistent(reg, Stamp(t, id, now))
  {
    StampRows(t, id, now);
    StampOwners(reg, t, id, now);
  }

  lemma DrainTxConsistent(reg: Registry, t: Tables, e: Event, now: int)
    requires Consistent(reg, t) && e.id in t.events
    ensures Consistent(reg, DrainTx(reg, t, e, now))
  {
    if Routable(e) { FanOutConsistent(reg, t, e, WrapperPool(e.direction).value, TriggersOf(reg, e.kind)); }
    StampConsistent(reg, HookEffect(reg, t, e), e.id, now);
  }

  lemma DrainTxTaken(reg: Registry, t: Tables, e: Event, now: int, id: Id, trig: string)
    requires FreshIds(t)
    ensures Taken(DrainTx(reg, t, e, now), id, trig) <==>
            Taken(t, id, trig) || (id == e.id && Routable(e) && Registered(reg, e.kind, trig))
  {
    var h := HookEffect(reg, t, e);
    if Routable(e) { FanOutTaken(t, e, WrapperPool(e.direction).value, TriggersOf(reg, e.kind), id, trig); }
    SameRows(h, DrainTx(reg, t, e, now), id, trig);
  }

  lemma DrainTxPreempted(reg: Registry, t: Tables, e: Event, now: int, id: Id, trig: string)
    requires FreshIds(t)
    ensures Preempted(reg, DrainTx(reg, t, e, now), id, trig) <==> Preempted(reg, t, id, trig)
  {
    var h := HookEffect(reg, t, e);
    if Routable(e) { FanOutFresh(t, e, WrapperPool(e.direction).value, TriggersOf(reg, e.kind)); }
    SamePreempted(reg, t, DrainTx(reg, t, e, now), id, trig);
  }

  /** One drain transaction, run on a first claim or on a replay, keeps the invariant. */
  lemma DrainTxKeeps(reg: Registry, t: Tables, e: Event, now: int)
    requires Committed(reg, t) && e.id in t.events && t.events[e.id].event == e
    ensures Committed(reg, DrainTx(reg, t, e, now))
  {
    DrainTxConsistent(reg, t, e, now);
    var u := DrainTx(reg, t, e, now);
    if Routable(e) { FanOutFresh(t, e, WrapperPool(e.direction).value, TriggersOf(reg, e.kind)); }
    forall id, trig: string | id in u.events
      ensures Taken(u, id, trig) <==> Owed(reg, u, id, trig)
    {
      DrainTxTaken(reg, t, e, now, id, trig);
      DrainTxPreempted(reg, t, e, now, id, trig);
      assert Taken(t, id, trig) <==> Owed(reg, t, id, trig);
    }
  }

  // ---------------------------------------------------------------- the handler's statements

  /** A change of the ledger that keeps every row's identity and leaves the eager rows alone. */
  ghost predicate LedgerTouch(t: Tables, u: Tables) {
    && u.events == t.events && u.runs == t.runs && u.nextId == t.nextId
    && u.deliveries.Keys == t.deliveries.Keys
    && forall i :: i in t.deliveries ==>
         && u.deliveries[i].eventId == t.deliveries[i].eventId
         && u.deliveries[i].triggerId == t.deliveries[i].triggerId
         && u.deliveries[i].wrapperRunId == t.deliveries[i].wrapperRunId
         && (t.deliveries[i].wrapperRunId.None? ==> u.deliveries[i] == t.deliveries[i])
         && (u.deliveries[i].userRunId.Some? ==> u.deliveries[i].userRunId.value in t.runs)
  }

  lemma LedgerTouchRows(t: Tables, u: Tables)
    requires FreshIds(t) && ForeignKeys(t) && UniqueKey(t) && Bijection(t) && EventsKeyed(t)
    requires EagerRows(t) && EagerOnce(t) && LedgerTouch(t, u)
    ensures FreshIds(u) && ForeignKeys(u) && UniqueKey(u) && Bijection(u) && EventsKeyed(u)
    ensures EagerRows(u) && EagerOnce(u)
  {
  }

  lemma LedgerTouchKeeps(reg: Registry, t: Tables, u: Tables)
    requires Committed(reg, t) && LedgerTouch(t, u) && BridgedParents(u)
    ensures Committed(reg, u)
  {
    LedgerTouchRows(t, u);
    LedgerTouchOwners(reg, t, u);
  }

  lemma LedgerTouchOwners(reg: Registry, t: Tables, u: Tables)
    requires LedgerTouch(t, u) && EagerRunsOwnTheirTriggers(reg, t) && AllOrNothing(reg, t)
    ensures EagerRunsOwnTheirTriggers(reg, u) && AllOrNothing(reg, u)
  {
    forall id, trig: string
      ensures Taken(u, id, trig) <==> Taken(t, id, trig)
      ensures Preempted(reg, u, id, trig) <==> Preempted(reg, t, id, trig)
    {
      SameRows(t, u, id, trig);
      SamePreempted(reg, t, u, id, trig);
    }
    forall id, trig: string | id in u.events ensures Taken(u, id, trig) <==> Owed(reg, u, id, trig) {
      assert Taken(t, id, trig) <==> Owed(reg, t, id, trig);
    }
  }

  lemma SpawnRuns(t: Tables, run: JobRun)
    requires run.origin.Bridged? && run.origin.parent in t.runs && t.runs[run.origin.parent].origin.Wrapper?
    requires FreshIds(t) && EagerRows(t) && EagerOnce(t) && BridgedParents(t)
    ensures var u := AddRun(t, run); EagerRows(u) && EagerOnce(u) && BridgedParents(u)
  {
  }

  lemma SpawnOwners(reg: Registry, t: Tables, run: JobRun)
    requires run.origin.Bridged? && FreshIds(t) && EagerRunsOwnTheirTriggers(reg, t) && AllOrNothing(reg, t)
    ensures EagerRunsOwnTheirTriggers(reg, AddRun(t, run)) && AllOrNothing(reg, AddRun(t, run))
  {
    var u := AddRun(t, run);
    forall id, trig: string
      ensures Taken(u, id, trig) <==> Taken(t, id, trig)
      ensures Preempted(reg, u, id, trig) <==> Preempted(reg, t, id, trig)
    {
      SameRows(t, u, id, trig);
      SamePreempted(reg, t, u, id, trig);
    }
    forall id, trig: string | id in u.events ensures Taken(u, id, trig) <==> Owed(reg, u, id, trig) {
      assert Taken(t, id, trig) <==> Owed(reg, t, id, trig);
    }
  }

  lemma SpawnKeeps(reg: Registry, t: Tables, run: JobRun)
    requires Committed(reg, t) && run.origin.Bridged?
    requires run.origin.parent in t.runs && t.runs[run.origin.parent].origin.Wrapper?
    ensures Committed(reg, AddRun(t, run))
  {
    AddRunRows(t, run);
    SpawnRuns(t, run);
    SpawnOwners(reg, t, run);
  }
}
