/** What holds of every run of the bridge. */
module BridgeTheorems {
  import opened Options
  import opened BridgeTables
  import opened BridgeInvariant
  import opened OutboxClaim
  import opened BridgeProtocol
  import opened BridgeRuns

  // ---------------------------------------------------------------- at most one user run

  /** The wrapper run drives the ledger row of this trigger of this event. */
  ghost predicate Serves(t: Tables, wrapper: Id, eventId: Id, triggerId: string) {
    exists i :: i in t.deliveries && t.deliveries[i].wrapperRunId == Some(wrapper)
      && t.deliveries[i].eventId == eventId && t.deliveries[i].triggerId == triggerId
  }

  /** The run was started because of this trigger of this event: by the wrapper of the trigger's
      delivery, or eagerly as the job one of the event's triggers of that id names. */
  ghost predicate StartedFor(reg: Registry, t: Tables, r: Id, eventId: Id, triggerId: string)
    requires r in t.runs
  {
    || (t.runs[r].origin == Eager && t.runs[r].triggerRef == eventId && eventId in t.events
        && exists x ::
             && x in TriggersOf(reg, t.events[eventId].event.kind)
             && x.triggerId == triggerId && x.jobType == t.runs[r].jobType)
    || (t.runs[r].origin.Bridged? && Serves(t, t.runs[r].origin.parent, eventId, triggerId))
  }

  ghost function OnBehalf(reg: Registry, t: Tables, eventId: Id, triggerId: string): set<Id> {
    set r | r in t.runs && StartedFor(reg, t, r, eventId, triggerId)
  }

  lemma EagerMeansPreempted(reg: Registry, t: Tables, r: Id, eventId: Id, triggerId: string)
    requires r in t.runs && t.runs[r].origin == Eager && StartedFor(reg, t, r, eventId, triggerId)
    ensures Preempted(reg, t, eventId, triggerId)
  {
    assert EagerJob(t, eventId, t.runs[r].jobType);
  }

  /** Two runs started for one trigger of one event have the same cause. */
  lemma SameCause(reg: Registry, t: Tables, r: Id, q: Id, eventId: Id, triggerId: string)
    requires UniqueKey(t) && EagerOnce(t) && EagerRunsOwnTheirTriggers(reg, t)
    requires r in t.runs && StartedFor(reg, t, r, eventId, triggerId)
    requires q in t.runs && StartedFor(reg, t, q, eventId, triggerId)
    ensures r == q || (t.runs[r].origin.Bridged? && t.runs[q].origin == t.runs[r].origin)
  {
    if t.runs[r].origin == Eager { EagerMeansPreempted(reg, t, r, eventId, triggerId); }
    if t.runs[q].origin == Eager { EagerMeansPreempted(reg, t, q, eventId, triggerId); }
  }

  /** Of the runs one wrapper started, at most one is not lost. */
  lemma OneLiveRunPerWrapper(c: Config, s: State, r: Id, q: Id)
    requires c.exclusive && Handlers(c, s)
    requires r in s.t.runs && q in s.t.runs && s.t.runs[r].origin.Bridged? && s.t.runs[q].origin == s.t.runs[r].origin
    requires r !in s.lost && q !in s.lost
    ensures r == q
  {
    var w := s.t.runs[r].origin.parent;
    assert Accounted(s, r) && Accounted(s, q);
    if InFlight(s, w, r) {
      var x :| x in s.attempts && s.attempts[x].wrapper == w && s.attempts[x].pc == AtRecord(r);
      assert AttemptOk(c, s.t, s.lost, s.attempts[x]);
    }
    if InFlight(s, w, q) {
      var y :| y in s.attempts && s.attempts[y].wrapper == w && s.attempts[y].pc == AtRecord(q);
      assert AttemptOk(c, s.t, s.lost, s.attempts[y]);
    }
  }

  lemma AtMostOneElement(s: set<Id>)
    requires forall x, y :: x in s && y in s ==> x == y
    ensures |s| <= 1
  {
    if x :| x in s { assert s == {x}; }
  }

  lemma SameRun(c: Config, s: State, r: Id, q: Id, eventId: Id, triggerId: string)
    requires c.exclusive && Consistent(c.reg, s.t) && Handlers(c, s)
    requires r in OnBehalf(c.reg, s.t, eventId, triggerId) - s.lost
    requires q in OnBehalf(c.reg, s.t, eventId, triggerId) - s.lost
    ensures r == q
  {
    SameCause(c.reg, s.t, r, q, eventId, triggerId);
    if r != q { OneLiveRunPerWrapper(c, s, r, q); }
  }

  /** Under exclusive attempts, outbox replays, concurrent drainers, handler retries and eager
      publishes together start at most one user run for a trigger, plus one for every attempt
      that died before recording the run it had started. */
  lemma StartsAreConserved(c: Config, actions: seq<Action>, eventId: Id, triggerId: string)
    requires c.exclusive
    ensures var s := Run(c, actions); |OnBehalf(c.reg, s.t, eventId, triggerId) - s.lost| <= 1
  {
    AlwaysInv(c, actions);
    var s := Run(c, actions);
    forall r, q |
        r in OnBehalf(c.reg, s.t, eventId, triggerId) - s.lost && q in OnBehalf(c.reg, s.t, eventId, triggerId) - s.lost
      ensures r == q
    {
      SameRun(c, s, r, q, eventId, triggerId);
    }
    AtMostOneElement(OnBehalf(c.reg, s.t, eventId, triggerId) - s.lost);
  }

  ghost predicate StartsOnce(c: Config) {
    forall actions: seq<Action>, eventId: Id, triggerId: string ::
      |OnBehalf(c.reg, Run(c, actions).t, eventId, triggerId)| <= 1
  }

  lemma AtMostOneRun(c: Config)
    requires c.exclusive && c.untorn
    ensures StartsOnce(c)
  {
    forall actions: seq<Action>, eventId: Id, triggerId: string
      ensures |OnBehalf(c.reg, Run(c, actions).t, eventId, triggerId)| <= 1
    {
      StartsAreConserved(c, actions, eventId, triggerId);
      AlwaysInv(c, actions);
      var s := Run(c, actions);
      assert OnBehalf(c.reg, s.t, eventId, triggerId) - s.lost == OnBehalf(c.reg, s.t, eventId, triggerId);
    }
  }

  // ---------------------------------------------------------------- registries that start nothing

  /** The handler would start a job for an event of this type and payload. */
  predicate Accepts(reg: Registry, kind: string, triggerId: string, payload: int) {
    var entry := FindRegistryEntry(TriggersOf(reg, kind), triggerId);
    entry.Some? && entry.value.when(payload)
  }

  /** Some trigger of the registry accepts some payload. */
  ghost predicate Serviceable(reg: Registry) {
    exists kind: string, triggerId: string, payload: int :: Accepts(reg, kind, triggerId, payload)
  }

  lemma SpawnNeedsTrigger(reg: Registry, t: Tables, i: Id)
    requires Decide(reg, t, i).SpawnJob?
    ensures Serviceable(reg)
  {
    var d := t.deliveries[i];
    var e := t.events[d.eventId].event;
    assert Accepts(reg, e.kind, d.triggerId, e.payload);
  }

  ghost predicate NoneBridged(t: Tables) {
    forall r :: r in t.runs ==> !t.runs[r].origin.Bridged?
  }

  lemma OtherRuns(c: Config, s: State, a: Action)
    requires Enabled(c, s, a) && !(a.PublishAndStart? || a.Drain? || a.Spawn?)
    ensures Apply(c, s, a).t.runs == s.t.runs
  {
  }

  lemma StepBridgesNone(c: Config, s: State, a: Action)
    requires FreshIds(s.t) && AttemptsOk(c, s) && Enabled(c, s, a) && NoneBridged(s.t) && !Serviceable(c.reg)
    ensures NoneBridged(Apply(c, s, a).t)
  {
    if a.PublishAndStart? {
      EagerTxExtends(c.reg, s.t, a.event, a.jobType);
    } else if a.Drain? {
      if a.commits { DrainTxExtends(c.reg, s.t, s.held[a.drainer][0], ClockOf(s, a.drainer)); }
    } else if a.Spawn? {
      assert AttemptOk(c, s.t, s.lost, s.attempts[a.worker]);
      SpawnNeedsTrigger(c.reg, s.t, s.attempts[a.worker].deliveryId);
    } else {
      OtherRuns(c, s, a);
    }
  }

  lemma {:induction false} NothingIsBridged(c: Config, actions: seq<Action>)
    requires !Serviceable(c.reg)
    ensures NoneBridged(Run(c, actions).t)
  {
    if actions != [] {
      var n := |actions| - 1;
      NothingIsBridged(c, actions[..n]);
      AlwaysInv(c, actions[..n]);
      var s := Run(c, actions[..n]);
      if Enabled(c, s, actions[n]) { StepBridgesNone(c, s, actions[n]); }
    }
  }

  /** Without such a trigger only eager publishes start runs, one per trigger at most. */
  lemma NoTriggerStartsOnce(c: Config)
    requires !Serviceable(c.reg)
    ensures StartsOnce(c)
  {
    forall actions: seq<Action>, eventId: Id, triggerId: string
      ensures |OnBehalf(c.reg, Run(c, actions).t, eventId, triggerId)| <= 1
    {
      AlwaysInv(c, actions);
      NothingIsBridged(c, actions);
      var t := Run(c, actions).t;
      forall r, q | r in OnBehalf(c.reg, t, eventId, triggerId) && q in OnBehalf(c.reg, t, eventId, triggerId)
        ensures r == q
      {
        SameCause(c.reg, t, r, q, eventId, triggerId);
      }
      AtMostOneElement(OnBehalf(c.reg, t, eventId, triggerId));
    }
  }

  // ---------------------------------------------------------------- wrappers and deliveries

  /** In every reachable state wrappers and wrapper-driven deliveries are in bijection and no two
      wrappers serve the same (event, trigger). */
  lemma WrappersMatchDeliveries(c: Config, actions: seq<Action>)
    ensures var t := Run(c, actions).t;
      && (forall i :: i in t.deliveries && t.deliveries[i].wrapperRunId.Some? ==>
            t.deliveries[i].wrapperRunId.value in t.runs
            && exists pool :: t.runs[t.deliveries[i].wrapperRunId.value].origin == Wrapper(i, pool))
      && (forall w :: w in t.runs && t.runs[w].origin.Wrapper? ==>
            t.runs[w].origin.deliveryId in t.deliveries
            && t.deliveries[t.runs[w].origin.deliveryId].wrapperRunId == Some(w))
    ensures var t := Run(c, actions).t;
      forall w, v | w in t.runs && v in t.runs && t.runs[w].origin.Wrapper? && t.runs[v].origin.Wrapper? ::
        t.runs[w].origin.deliveryId in t.deliveries && t.runs[v].origin.deliveryId in t.deliveries &&
        (t.deliveries[t.runs[w].origin.deliveryId].eventId == t.deliveries[t.runs[v].origin.deliveryId].eventId
         && t.deliveries[t.runs[w].origin.deliveryId].triggerId == t.deliveries[t.runs[v].origin.deliveryId].triggerId
         ==> w == v)
  {
    AlwaysInv(c, actions);
    var t := Run(c, actions).t;
    forall i | i in t.deliveries && t.deliveries[i].wrapperRunId.Some?
      ensures exists pool :: t.runs[t.deliveries[i].wrapperRunId.value].origin == Wrapper(i, pool)
    {
      var w := t.deliveries[i].wrapperRunId.value;
      assert t.runs[w].origin == Wrapper(i, t.runs[w].origin.pool);
    }
  }

  // ---------------------------------------------------------------- all or nothing

  /** A processed routable event has a ledger row for every registered trigger; an event that is
      still pending, or cannot be routed, has exactly the rows its eager publish wrote. */
  lemma FanOutAllOrNothing(c: Config, actions: seq<Action>, id: Id, triggerId: string)
    requires id in Run(c, actions).t.events
    ensures var t := Run(c, actions).t; var row := t.events[id];
      Taken(t, id, triggerId) <==>
        if !row.Pending() && Routable(row.event)
        then Registered(c.reg, row.event.kind, triggerId)
        else Preempted(c.reg, t, id, triggerId)
  {
    AlwaysInv(c, actions);
    var t := Run(c, actions).t;
    assert Taken(t, id, triggerId) <==> Owed(c.reg, t, id, triggerId);
  }

  /** An event without an eager publish has no ledger row at all while it is pending. */
  lemma PendingMeansUntouched(c: Config, actions: seq<Action>, id: Id, triggerId: string)
    requires var t := Run(c, actions).t; id in t.events && t.events[id].Pending()
    requires forall job: string :: !EagerJob(Run(c, actions).t, id, job)
    ensures !Taken(Run(c, actions).t, id, triggerId)
  {
    FanOutAllOrNothing(c, actions, id, triggerId);
  }

  // ---------------------------------------------------------------- ledger transitions

  /** Rows move only along pending to delivered and pending to skipped, and rows without a wrapper
      not at all. */
  ghost predicate LedgerMoves(t: Tables, u: Tables) {
    forall i :: i in t.deliveries ==>
      && i in u.deliveries
      && u.deliveries[i].eventId == t.deliveries[i].eventId
      && u.deliveries[i].triggerId == t.deliveries[i].triggerId
      && u.deliveries[i].wrapperRunId == t.deliveries[i].wrapperRunId
      && (t.deliveries[i].wrapperRunId.None? ==> u.deliveries[i] == t.deliveries[i])
      && (t.deliveries[i].status != Pending ==> u.deliveries[i].status == t.deliveries[i].status)
  }

  /** No row's user run, once set, changes. */
  ghost predicate RunsStay(t: Tables, u: Tables) {
    forall i :: i in t.deliveries && t.deliveries[i].userRunId.Some? ==>
      i in u.deliveries && u.deliveries[i].userRunId == t.deliveries[i].userRunId
  }

  lemma ExtendsMoves(t: Tables, u: Tables)
    requires Extends(t, u)
    ensures LedgerMoves(t, u) && RunsStay(t, u)
  {
  }

  lemma MarkMoves(c: Config, s: State, w: nat)
    requires Bijection(s.t) && LedgerOk(c, s.t) && AttemptsOk(c, s) && At(s, w)
    requires s.attempts[w].pc.AtMark?
    ensures LedgerMoves(s.t, AfterMark(s, w).t)
    ensures c.exclusive || !Serviceable(c.reg) ==> RunsStay(s.t, AfterMark(s, w).t)
  {
    assert AttemptOk(c, s.t, s.lost, s.attempts[w]);
    assert RowOk(c, s.t, s.attempts[w].deliveryId);
    SpawnNeedsTrigger(c.reg, s.t, s.attempts[w].deliveryId);
  }

  lemma SkipMoves(c: Config, s: State, w: nat)
    requires Bijection(s.t) && LedgerOk(c, s.t) && AttemptsOk(c, s) && At(s, w)
    requires s.attempts[w].pc.AtSkip?
    ensures LedgerMoves(s.t, AfterSkip(s, w).t) && RunsStay(s.t, AfterSkip(s, w).t)
  {
    assert AttemptOk(c, s.t, s.lost, s.attempts[w]);
    assert RowOk(c, s.t, s.attempts[w].deliveryId);
  }

  lemma DrainerMoves(c: Config, s: State, a: Action)
    requires FreshIds(s.t) && Enabled(c, s, a)
    requires a.Publish? || a.PublishAndStart? || a.Drain?
    ensures LedgerMoves(s.t, Apply(c, s, a).t) && RunsStay(s.t, Apply(c, s, a).t)
  {
    match a
    case Publish(e) =>
      assert Extends(s.t, InsertEvent(s.t, e));
      ExtendsMoves(s.t, InsertEvent(s.t, e));
    case PublishAndStart(e, job) =>
      EagerTxExtends(c.reg, s.t, e, job);
      ExtendsMoves(s.t, EagerTx(c.reg, s.t, e, job));
    case Drain(d, commits) =>
      DrainTxExtends(c.reg, s.t, s.held[d][0], ClockOf(s, d));
      ExtendsMoves(s.t, DrainTx(c.reg, s.t, s.held[d][0], ClockOf(s, d)));
  }

  lemma OtherMoves(c: Config, s: State, a: Action)
    requires Enabled(c, s, a)
    requires !(a.Publish? || a.PublishAndStart? || a.Drain? || a.Mark? || a.Skip?)
    ensures LedgerMoves(s.t, Apply(c, s, a).t) && RunsStay(s.t, Apply(c, s, a).t)
  {
  }

  lemma StepMoves(c: Config, s: State, a: Action)
    requires Inv(c, s)
    ensures LedgerMoves(s.t, Step(c, s, a).t)
    ensures c.exclusive || !Serviceable(c.reg) ==> RunsStay(s.t, Step(c, s, a).t)
  {
    if Enabled(c, s, a) {
      if a.Publish? || a.PublishAndStart? || a.Drain? { DrainerMoves(c, s, a); }
      else if a.Mark? { MarkMoves(c, s, a.worker); }
      else if a.Skip? { SkipMoves(c, s, a.worker); }
      else { OtherMoves(c, s, a); }
    }
  }

  lemma MovesFurther(t: Tables, u: Tables, v: Tables)
    ensures LedgerMoves(t, u) && LedgerMoves(u, v) ==> LedgerMoves(t, v)
    ensures RunsStay(t, u) && RunsStay(u, v) ==> RunsStay(t, v)
  {
  }

  lemma LastStep(c: Config, before: seq<Action>, after: seq<Action>)
    requires after != []
    ensures var n := |after| - 1; var s := Run(c, before + after[..n]);
      Inv(c, s) && Run(c, before + after) == Step(c, s, after[n])
  {
    var n := |after| - 1;
    assert (before + after)[..|before + after| - 1] == before + after[..n];
    AlwaysInv(c, before + after[..n]);
  }

  /** Over any continuation of any run, overlapping attempts included, a row that has left `pending`
      keeps its status and an eagerly delivered row is never touched. A row's user run is kept as
      well if attempts of one wrapper do not overlap or no trigger starts anything. */
  lemma {:induction false} LedgerIsMonotone(c: Config, before: seq<Action>, after: seq<Action>)
    ensures LedgerMoves(Run(c, before).t, Run(c, before + after).t)
    ensures c.exclusive || !Serviceable(c.reg) ==> RunsStay(Run(c, before).t, Run(c, before + after).t)
  {
    if after == [] {
      assert before + after == before;
    } else {
      var n := |after| - 1;
      LedgerIsMonotone(c, before, after[..n]);
      LastStep(c, before, after);
      var s := Run(c, before + after[..n]);
      StepMoves(c, s, after[n]);
      MovesFurther(Run(c, before).t, s.t, Step(c, s, after[n]).t);
    }
  }

  /** A delivered row names a run that was started for exactly its event and trigger. */
  lemma DeliveredRowsNameTheirRun(c: Config, actions: seq<Action>, i: Id)
    requires i in Run(c, actions).t.deliveries && Run(c, actions).t.deliveries[i].status == Delivered
    ensures var t := Run(c, actions).t;
      && t.deliveries[i].userRunId.Some?
      && (t.deliveries[i].wrapperRunId.Some? ==>
            t.deliveries[i].userRunId.value in OnBehalf(c.reg, t, t.deliveries[i].eventId, t.deliveries[i].triggerId))
      && (t.deliveries[i].wrapperRunId.None? ==>
            t.deliveries[i].userRunId.value in t.runs && t.runs[t.deliveries[i].userRunId.value].origin == Eager
            && t.runs[t.deliveries[i].userRunId.value].triggerRef == t.deliveries[i].eventId)
  {
    AlwaysInv(c, actions);
    var t := Run(c, actions).t;
    if t.deliveries[i].wrapperRunId.Some? {
      assert RowOk(c, t, i);
      assert StartedFor(c.reg, t, t.deliveries[i].userRunId.value, t.deliveries[i].eventId, t.deliveries[i].triggerId);
    }
  }

  // ---------------------------------------------------------------- readiness

  /** Every held row is due by its holder's clock. */
  ghost predicate HoldsDue(s: State) {
    forall d, k :: d in s.held && 0 <= k < |s.held[d]| ==> s.held[d][k].occurredAt <= ClockOf(s, d)
  }

  /** No drainer ever holds more than fifty rows; and while no clock is set back none holds a row that
      is not due by its clock, and no event is stamped processed before its occurredAt. */
  lemma NeverEarly(c: Config, actions: seq<Action>)
    ensures var s := Run(c, actions);
      && (forall d :: d in s.held ==> |s.held[d]| <= POLL_BATCH_SIZE)
      && (c.monotone ==> HoldsDue(s) && StampedInTime(s))
  {
    AlwaysInv(c, actions);
  }

  /** The stamp of an event is written once: replays of a claimed row do not move it. */
  lemma {:induction false} StampedOnce(c: Config, before: seq<Action>, after: seq<Action>, id: Id)
    requires id in Run(c, before).t.events && !Run(c, before).t.events[id].Pending()
    ensures id in Run(c, before + after).t.events
    ensures Run(c, before + after).t.events[id] == Run(c, before).t.events[id]
  {
    if after == [] {
      assert before + after == before;
    } else {
      var n := |after| - 1;
      StampedOnce(c, before, after[..n], id);
      LastStep(c, before, after);
      var s := Run(c, before + after[..n]);
      if Enabled(c, s, after[n]) { StepKeepsStamps(c, s, after[n], id); }
    }
  }

  lemma OtherEvents(c: Config, s: State, a: Action)
    requires Enabled(c, s, a) && !(a.Publish? || a.PublishAndStart? || a.Drain?)
    ensures Apply(c, s, a).t.events == s.t.events
  {
  }

  lemma DrainKeepsStamps(reg: Registry, t: Tables, e: Event, now: int, id: Id)
    requires FreshIds(t) && id in t.events && !t.events[id].Pending()
    ensures id in DrainTx(reg, t, e, now).events && DrainTx(reg, t, e, now).events[id] == t.events[id]
  {
    if Routable(e) { FanOutFresh(t, e, WrapperPool(e.direction).value, TriggersOf(reg, e.kind)); }
  }

  lemma EagerKeepsStamps(reg: Registry, t: Tables, e: Event, job: string, id: Id)
    requires FreshIds(t) && CanInsertEvent(t, e) && id in t.events
    ensures id in EagerTx(reg, t, e, job).events && EagerTx(reg, t, e, job).events[id] == t.events[id]
  {
    PreWriteFrame(WithEagerRun(t, e, job), e.id, t.nextId, Matching(TriggersOf(reg, e.kind), job));
  }

  lemma StepKeepsStamps(c: Config, s: State, a: Action, id: Id)
    requires FreshIds(s.t) && Enabled(c, s, a) && id in s.t.events && !s.t.events[id].Pending()
    ensures id in Apply(c, s, a).t.events && Apply(c, s, a).t.events[id] == s.t.events[id]
  {
    if a.PublishAndStart? {
      EagerKeepsStamps(c.reg, s.t, a.event, a.jobType, id);
    } else if a.Drain? {
      DrainKeepsStamps(c.reg, s.t, s.held[a.drainer][0], ClockOf(s, a.drainer), id);
    } else if !a.Publish? {
      OtherEvents(c, s, a);
    }
  }
}
