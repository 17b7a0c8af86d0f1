/** What rows and runs hold. */
module BridgeContents {
  import opened Options
  import opened BridgeTables
  import opened BridgeInvariant
  import opened OutboxClaim
  import opened BridgeProtocol
  import opened BridgeRuns
  import opened BridgeTheorems

  // ---------------------------------------------------------------- what steps add

  /** Every run the tables gained is an eager one or a wrapper of this event in this pool. */
  ghost predicate GainsWrappersOf(t: Tables, u: Tables, id: Id, pool: string) {
    forall r :: r in u.runs && r !in t.runs ==>
      u.runs[r].jobType == "@framework/bridge_delivery" && u.runs[r].triggerRef == id
      && u.runs[r].origin.Wrapper? && u.runs[r].origin.pool == pool
  }

  lemma {:induction false} FanOutGains(t: Tables, e: Event, pool: string, triggers: seq<Trigger>)
    requires FreshIds(t)
    ensures GainsWrappersOf(t, FanOut(t, e, pool, triggers), e.id, pool)
    ensures FanOut(t, e, pool, triggers).memo == t.memo
  {
    if triggers != [] {
      var n := |triggers| - 1;
      FanOutGains(t, e, pool, triggers[..n]);
      FanOutFresh(t, e, pool, triggers[..n]);
      FanOutExtends(t, e, pool, triggers[..n]);
    }
  }

  lemma ExtendsGrows(t: Tables, u: Tables)
    requires Extends(t, u)
    ensures Grows(t, u)
  {
  }

  lemma StepGrows(c: Config, s: State, a: Action)
    requires FreshIds(s.t) && Enabled(c, s, a)
    ensures Grows(s.t, Apply(c, s, a).t)
  {
    if a.PublishAndStart? {
      EagerTxExtends(c.reg, s.t, a.event, a.jobType);
    } else if a.Drain? {
      DrainTxExtends(c.reg, s.t, s.held[a.drainer][0], ClockOf(s, a.drainer));
    }
  }

  // ---------------------------------------------------------------- which job a wrapper starts

  /** A run its wrapper started is the job the wrapper's row was decided for. */
  ghost predicate JobOk(reg: Registry, t: Tables, r: Id)
    requires r in t.runs && t.runs[r].origin.Bridged?
  {
    var w := t.runs[r].origin.parent;
    && w in t.runs && t.runs[w].origin.Wrapper?
    && var i := t.runs[w].origin.deliveryId;
       && i in t.deliveries && Decide(reg, t, i) == SpawnJob(t.runs[r].jobType)
       && t.runs[r].triggerRef == t.deliveries[i].eventId
  }

  ghost predicate JobsOk(reg: Registry, t: Tables) {
    forall r {:trigger JobOk(reg, t, r)} :: r in t.runs && t.runs[r].origin.Bridged? ==> JobOk(reg, t, r)
  }

  lemma JobStays(reg: Registry, t: Tables, u: Tables, r: Id)
    requires Grows(t, u) && ForeignKeys(t) && r in t.runs && t.runs[r].origin.Bridged? && JobOk(reg, t, r)
    ensures JobOk(reg, u, r)
  {
    DecideStable(reg, t, u, t.runs[t.runs[r].origin.parent].origin.deliveryId);
  }

  /** Only a start adds a run of a wrapper. */
  lemma NewBridgedRuns(c: Config, s: State, a: Action, r: Id)
    requires FreshIds(s.t) && Enabled(c, s, a) && r in Apply(c, s, a).t.runs && r !in s.t.runs
    requires Apply(c, s, a).t.runs[r].origin.Bridged?
    ensures a.Spawn? && r == s.t.nextId
  {
    if a.PublishAndStart? {
      EagerTxExtends(c.reg, s.t, a.event, a.jobType);
    } else if a.Drain? {
      DrainTxExtends(c.reg, s.t, s.held[a.drainer][0], ClockOf(s, a.drainer));
    } else if !a.Spawn? {
      OtherRuns(c, s, a);
    }
  }

  lemma SpawnedJob(c: Config, s: State, w: nat)
    requires FreshIds(s.t) && ForeignKeys(s.t) && AttemptsOk(c, s) && Enabled(c, s, Spawn(w))
    ensures JobOk(c.reg, AfterSpawn(s, w).t, s.t.nextId)
  {
    assert AttemptOk(c, s.t, s.lost, s.attempts[w]);
    SpawnGrows(s, w);
    DecideStable(c.reg, s.t, AfterSpawn(s, w).t, s.attempts[w].deliveryId);
  }

  lemma StepJobs(c: Config, s: State, a: Action)
    requires Inv(c, s) && JobsOk(c.reg, s.t) && Enabled(c, s, a)
    ensures JobsOk(c.reg, Apply(c, s, a).t)
  {
    var u := Apply(c, s, a).t;
    StepGrows(c, s, a);
    forall r | r in u.runs && u.runs[r].origin.Bridged? ensures JobOk(c.reg, u, r) {
      if r in s.t.runs {
        assert JobOk(c.reg, s.t, r);
        JobStays(c.reg, s.t, u, r);
      } else {
        NewBridgedRuns(c, s, a, r);
        SpawnedJob(c, s, a.worker);
      }
    }
  }

  lemma {:induction false} AlwaysJobs(c: Config, actions: seq<Action>)
    ensures JobsOk(c.reg, Run(c, actions).t)
  {
    if actions != [] {
      var n := |actions| - 1;
      AlwaysJobs(c, actions[..n]);
      AlwaysInv(c, actions[..n]);
      var s := Run(c, actions[..n]);
      if Enabled(c, s, actions[n]) { StepJobs(c, s, actions[n]); }
    }
  }

  /** The trigger's own job, for the event it fired on. */
  ghost predicate RunsTrigger(reg: Registry, e: Event, triggerId: string, run: JobRun) {
    && run.triggerRef == e.id && e.kind in reg
    && exists x :: x in reg[e.kind] && x.triggerId == triggerId && x.when(e.payload) && x.jobType == run.jobType
  }

  /** In every reachable state a run a wrapper started has the job type of a trigger of its row's event
      and trigger id that accepts the event's payload, and refers to that event. */
  lemma BridgedRunsAreTriggered(c: Config, actions: seq<Action>, r: Id)
    requires r in Run(c, actions).t.runs && Run(c, actions).t.runs[r].origin.Bridged?
    ensures var t := Run(c, actions).t;
      exists i :: i in t.deliveries && t.deliveries[i].wrapperRunId == Some(t.runs[r].origin.parent)
        && t.deliveries[i].eventId in t.events
        && RunsTrigger(c.reg, t.events[t.deliveries[i].eventId].event, t.deliveries[i].triggerId, t.runs[r])
  {
    AlwaysInv(c, actions);
    AlwaysJobs(c, actions);
    var t := Run(c, actions).t;
    assert JobOk(c.reg, t, r);
    var i := t.runs[t.runs[r].origin.parent].origin.deliveryId;
    var e := t.events[t.deliveries[i].eventId].event;
    assert FindRegistryEntry(TriggersOf(c.reg, e.kind), t.deliveries[i].triggerId).Some?;
    assert RunsTrigger(c.reg, e, t.deliveries[i].triggerId, t.runs[r]);
  }

  /** So the user run of a delivered row is its trigger's own job on its event. */
  lemma DeliveredRowsRanTheirTrigger(c: Config, actions: seq<Action>, i: Id)
    requires i in Run(c, actions).t.deliveries
    requires Run(c, actions).t.deliveries[i].status == Delivered && Run(c, actions).t.deliveries[i].wrapperRunId.Some?
    ensures var t := Run(c, actions).t; var d := t.deliveries[i];
      && d.eventId in t.events && d.userRunId.Some? && d.userRunId.value in t.runs
      && t.runs[d.userRunId.value].origin == Bridged(d.wrapperRunId.value)
      && RunsTrigger(c.reg, t.events[d.eventId].event, d.triggerId, t.runs[d.userRunId.value])
  {
    AlwaysInv(c, actions);
    var t := Run(c, actions).t;
    assert RowOk(c, t, i);
    var r := t.deliveries[i].userRunId.value;
    BridgedRunsAreTriggered(c, actions, r);
    var j :| j in t.deliveries && t.deliveries[j].wrapperRunId == Some(t.runs[r].origin.parent)
      && t.deliveries[j].eventId in t.events
      && RunsTrigger(c.reg, t.events[t.deliveries[j].eventId].event, t.deliveries[j].triggerId, t.runs[r]);
    assert j == i;
  }

  // ---------------------------------------------------------------- where wrappers go

  /** A wrapper run serves its event in the pool of the event's direction. */
  ghost predicate RouteOk(t: Tables, w: Id)
    requires w in t.runs
  {
    && t.runs[w].jobType == "@framework/bridge_delivery" && t.runs[w].triggerRef in t.events
    && t.runs[w].origin.Wrapper?
    && var e := t.events[t.runs[w].triggerRef].event;
       && !e.audit && e.direction.Some? && e.direction.value in ["inbound", "change", "outbound"]
       && t.runs[w].origin.pool == "events_" + e.direction.value
  }

  ghost predicate RoutesOk(t: Tables) {
    forall w {:trigger RouteOk(t, w)} :: w in t.runs && t.runs[w].origin.Wrapper? ==> RouteOk(t, w)
  }

  lemma PoolOfDirection(e: Event)
    requires Routable(e)
    ensures !e.audit && e.direction.Some? && e.direction.value in ["inbound", "change", "outbound"]
    ensures WrapperPool(e.direction) == Some("events_" + e.direction.value)
  {
    assert "events_" + "inbound" == "events_inbound";
    assert "events_" + "change" == "events_change";
    assert "events_" + "outbound" == "events_outbound";
  }

  lemma RouteStays(t: Tables, u: Tables, w: Id)
    requires Grows(t, u) && w in t.runs && RouteOk(t, w)
    ensures RouteOk(u, w)
  {
  }

  lemma {:induction false} PreWriteRuns(t: Tables, eventId: Id, runId: Id, triggers: seq<Trigger>)
    ensures PreWrite(t, eventId, runId, triggers).runs == t.runs
  {
    if triggers != [] { PreWriteRuns(t, eventId, runId, triggers[..|triggers| - 1]); }
  }

  /** Only a drain adds wrappers, and routes them. */
  lemma NewWrappers(c: Config, s: State, a: Action, w: Id)
    requires FreshIds(s.t) && HeldRows(c, s) && Enabled(c, s, a) && w in Apply(c, s, a).t.runs && w !in s.t.runs
    requires Apply(c, s, a).t.runs[w].origin.Wrapper?
    ensures RouteOk(Apply(c, s, a).t, w)
  {
    if a.PublishAndStart? {
      PreWriteRuns(WithEagerRun(s.t, a.event, a.jobType), a.event.id, s.t.nextId,
                   Matching(TriggersOf(c.reg, a.event.kind), a.jobType));
    } else if a.Drain? {
      DrainedWrapper(c, s, a.drainer, w);
    } else if !a.Spawn? {
      OtherRuns(c, s, a);
    }
  }

  lemma DrainedWrapper(c: Config, s: State, d: nat, w: Id)
    requires FreshIds(s.t) && HeldRows(c, s) && Holding(s, d)
    requires var u := AfterDrain(c, s, d, true).t; w in u.runs && w !in s.t.runs
    ensures RouteOk(AfterDrain(c, s, d, true).t, w)
  {
    var e := s.held[d][0];
    assert s.t.events[e.id].event == e;
    assert Routable(e);
    PoolOfDirection(e);
    FanOutGains(s.t, e, "events_" + e.direction.value, TriggersOf(c.reg, e.kind));
    FanOutFresh(s.t, e, "events_" + e.direction.value, TriggersOf(c.reg, e.kind));
  }

  lemma StepRoutes(c: Config, s: State, a: Action)
    requires Inv(c, s) && RoutesOk(s.t) && Enabled(c, s, a)
    ensures RoutesOk(Apply(c, s, a).t)
  {
    var u := Apply(c, s, a).t;
    StepGrows(c, s, a);
    forall w | w in u.runs && u.runs[w].origin.Wrapper? ensures RouteOk(u, w) {
      if w in s.t.runs {
        assert RouteOk(s.t, w);
        RouteStays(s.t, u, w);
      } else {
        NewWrappers(c, s, a, w);
      }
    }
  }

  /** In every reachable state each wrapper run is a bridge delivery in the pool of its event's direction. */
  lemma {:induction false} WrappersAreRouted(c: Config, actions: seq<Action>)
    ensures RoutesOk(Run(c, actions).t)
  {
    if actions != [] {
      var n := |actions| - 1;
      WrappersAreRouted(c, actions[..n]);
      AlwaysInv(c, actions[..n]);
      var s := Run(c, actions[..n]);
      if Enabled(c, s, actions[n]) { StepRoutes(c, s, actions[n]); }
    }
  }

  // ---------------------------------------------------------------- the fan-out, spelled out

  /** Some trigger of the type has this id. */
  ghost predicate Declared(reg: Registry, kind: string, triggerId: string) {
    kind in reg && exists x :: x in reg[kind] && x.triggerId == triggerId
  }

  /** An eager publish of the event started the job of a trigger with this id. */
  ghost predicate StartedEagerly(reg: Registry, t: Tables, e: Event, triggerId: string) {
    e.kind in reg && exists x, r ::
      && x in reg[e.kind] && x.triggerId == triggerId
      && r in t.runs && t.runs[r].origin == Eager && t.runs[r].triggerRef == e.id && t.runs[r].jobType == x.jobType
  }

  /** In every reachable state an event that is processed, not audit, and of direction inbound, change or
      outbound has ledger rows for exactly the trigger ids of its type; any other event for exactly
      those whose job its eager publish started. */
  lemma FanOutSpelledOut(c: Config, actions: seq<Action>, id: Id, triggerId: string)
    requires id in Run(c, actions).t.events
    ensures var t := Run(c, actions).t; var row := t.events[id]; var e := row.event;
      (exists i :: i in t.deliveries && t.deliveries[i].eventId == id && t.deliveries[i].triggerId == triggerId) <==>
        if row.processedAt.Some? && !e.audit && e.direction in [Some("inbound"), Some("change"), Some("outbound")]
        then Declared(c.reg, e.kind, triggerId)
        else StartedEagerly(c.reg, t, e, triggerId)
  {
    AlwaysInv(c, actions);
    FanOutAllOrNothing(c, actions, id, triggerId);
    var t := Run(c, actions).t;
    var e := t.events[id].event;
    PreemptedMeans(c.reg, t, id, triggerId);
    assert Registered(c.reg, e.kind, triggerId) <==> Declared(c.reg, e.kind, triggerId);
  }

  lemma PreemptedMeans(reg: Registry, t: Tables, id: Id, triggerId: string)
    requires EventsKeyed(t) && id in t.events
    ensures Preempted(reg, t, id, triggerId) <==> StartedEagerly(reg, t, t.events[id].event, triggerId)
  {
    var e := t.events[id].event;
    if Preempted(reg, t, id, triggerId) {
      var x :| x in TriggersOf(reg, e.kind) && x.triggerId == triggerId && EagerJob(t, id, x.jobType);
      var r :| r in t.runs && t.runs[r].origin == Eager && t.runs[r].triggerRef == id && t.runs[r].jobType == x.jobType;
    }
    if StartedEagerly(reg, t, e, triggerId) {
      var x, r :| x in reg[e.kind] && x.triggerId == triggerId
        && r in t.runs && t.runs[r].origin == Eager && t.runs[r].triggerRef == e.id && t.runs[r].jobType == x.jobType;
      assert EagerJob(t, id, x.jobType);
    }
  }

  // ---------------------------------------------------------------- ledger rows, spelled out

  /** The first trigger of this id, if any, refuses the payload. */
  ghost predicate Refuses(triggers: seq<Trigger>, triggerId: string, payload: int) {
    exists k :: 0 <= k < |triggers| && triggers[k].triggerId == triggerId && !triggers[k].when(payload)
      && forall j :: 0 <= j < k ==> triggers[j].triggerId != triggerId
  }

  lemma {:induction false} FoundFirst(triggers: seq<Trigger>, triggerId: string)
    requires FindRegistryEntry(triggers, triggerId).Some?
    ensures exists k ::
      && 0 <= k < |triggers| && triggers[k] == FindRegistryEntry(triggers, triggerId).value
      && forall j :: 0 <= j < k ==> triggers[j].triggerId != triggerId
  {
    if triggers[0].triggerId == triggerId {
      assert triggers[0] == FindRegistryEntry(triggers, triggerId).value;
    } else {
      FoundFirst(triggers[1..], triggerId);
      var k :| 0 <= k < |triggers[1..]| && triggers[1..][k] == FindRegistryEntry(triggers[1..], triggerId).value
        && forall j :: 0 <= j < k ==> triggers[1..][j].triggerId != triggerId;
      assert triggers[k + 1] == triggers[1..][k];
      forall j | 0 <= j < k + 1 ensures triggers[j].triggerId != triggerId {
        if j > 0 { assert triggers[j] == triggers[1..][j - 1]; }
      }
    }
  }

  /** In every reachable state: a pending row names neither a run nor a reason; a skipped one says that
      its trigger is not registered, or that it refuses the event, and that is so; a delivered one
      names a run and no reason; and a row without a wrapper is delivered. */
  lemma RowsSayWhy(c: Config, actions: seq<Action>, i: Id)
    requires i in Run(c, actions).t.deliveries
    ensures var t := Run(c, actions).t; var d := t.deliveries[i];
      && d.eventId in t.events
      && var e := t.events[d.eventId].event;
         && (d.wrapperRunId.None? ==> d.status == Delivered)
         && (d.status != Delivered ==> d.userRunId.None?) && (d.status == Delivered ==> d.userRunId.Some?)
         && (d.status != Skipped ==> d.skipReason.None?)
         && (d.status == Skipped ==>
               || (d.skipReason == Some("trigger_unregistered") && !Declared(c.reg, e.kind, d.triggerId))
               || (d.skipReason == Some("predicate_false") && e.kind in c.reg
                   && Refuses(c.reg[e.kind], d.triggerId, e.payload)))
  {
    AlwaysInv(c, actions);
    var t := Run(c, actions).t;
    var d := t.deliveries[i];
    if d.wrapperRunId.Some? {
      assert RowOk(c, t, i);
      var e := t.events[d.eventId].event;
      if d.status == Skipped && FindRegistryEntry(TriggersOf(c.reg, e.kind), d.triggerId).Some? {
        FoundFirst(TriggersOf(c.reg, e.kind), d.triggerId);
      }
    }
  }

  // ---------------------------------------------------------------- drainers and their pools

  /** The row is in one of the pools, or there is no list of pools. */
  predicate InOneOf(pools: seq<string>, e: Event) {
    pools == [] || exists k :: 0 <= k < |pools| && e.pool == Some(pools[k])
  }

  ghost predicate HoldsOwn(c: Config, s: State) {
    forall d, k :: d in s.held && 0 <= k < |s.held[d]| ==>
      InOneOf(if d in c.pools then c.pools[d] else [], s.held[d][k])
  }

  lemma ClaimIsOwn(t: Tables, pools: seq<string>, now: int, locked: set<Id>, rows: seq<Event>, k: nat)
    requires IsClaim(t, pools, now, locked, rows) && k < |rows|
    ensures InOneOf(pools, rows[k])
  {
    if pools != [] {
      var j :| 0 <= j < |pools| && pools[j] == rows[k].pool.value;
    }
  }

  lemma OtherHeld(c: Config, s: State, a: Action)
    requires Enabled(c, s, a) && !(a.Claim? || a.Drain? || a.Abandon?)
    ensures Apply(c, s, a).held == s.held
  {
  }

  /** A drainer only ever holds rows of its own pools. */
  lemma {:induction false} DrainersKeepToTheirPools(c: Config, actions: seq<Action>)
    ensures HoldsOwn(c, Run(c, actions))
  {
    if actions != [] {
      var n := |actions| - 1;
      DrainersKeepToTheirPools(c, actions[..n]);
      var s, a := Run(c, actions[..n]), actions[n];
      if Enabled(c, s, a) {
        if a.Claim? {
          var pools := if a.drainer in c.pools then c.pools[a.drainer] else [];
          forall k: nat | k < |a.rows| ensures InOneOf(pools, a.rows[k]) {
            ClaimIsOwn(s.t, PoolsOf(c, a.drainer), ClockOf(s, a.drainer), a.locked, a.rows, k);
          }
        } else if !(a.Drain? || a.Abandon?) {
          OtherHeld(c, s, a);
        }
      }
    }
  }
}
