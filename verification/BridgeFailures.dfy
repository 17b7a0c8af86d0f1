/** The runs in which a guarantee fails. */
module BridgeFailures {
  import opened Options
  import opened BridgeTables
  import opened BridgeInvariant
  import opened OutboxClaim
  import opened BridgeProtocol
  import opened BridgeRuns
  import opened BridgeTheorems
  import opened FiniteSets

  lemma RunSnoc(c: Config, actions: seq<Action>, a: Action)
    ensures Run(c, actions + [a]) == Step(c, Run(c, actions), a)
  {
    assert (actions + [a])[..|actions + [a]| - 1] == actions;
  }

  // ---------------------------------------------------------------- one drained event

  /** An event of this type and payload that the first drainer may claim at once. */
  function Sample(c: Config, kind: string, payload: int): Event {
    var pools := PoolsOf(c, 0);
    Event(0, kind, false, Some("change"), Some(if pools == [] then "events_change" else pools[0]), payload, 0)
  }

  /** The tables after publishing and draining the sample. */
  function Drained(c: Config, kind: string, payload: int): Tables {
    DrainTx(c.reg, InsertEvent(EMPTY, Sample(c, kind, payload)), Sample(c, kind, payload), 0)
  }

  lemma SampleClaim(c: Config, kind: string, payload: int)
    ensures IsClaim(InsertEvent(EMPTY, Sample(c, kind, payload)), PoolsOf(c, 0), 0, {}, [Sample(c, kind, payload)])
  {
    var e := Sample(c, kind, payload);
    assert Claims([e], 0) by { assert [e][0].id == 0; }
  }

  lemma DrainedByRun(c: Config, kind: string, payload: int) returns (actions: seq<Action>)
    ensures Run(c, actions) == State(Drained(c, kind, payload), map[], map[0 := []], map[], {})
  {
    var e := Sample(c, kind, payload);
    var t := InsertEvent(EMPTY, e);
    RunSnoc(c, [], Publish(e));
    assert Run(c, [] + [Publish(e)]) == START.(t := t);
    SampleClaim(c, kind, payload);
    RunSnoc(c, [] + [Publish(e)], Claim(0, {}, [e]));
    assert Run(c, [] + [Publish(e)] + [Claim(0, {}, [e])]) == START.(t := t, held := map[0 := [e]]);
    RunSnoc(c, [] + [Publish(e)] + [Claim(0, {}, [e])], Drain(0, true));
    actions := [] + [Publish(e)] + [Claim(0, {}, [e])] + [Drain(0, true)];
  }

  ghost predicate AllWrapped(t: Tables) {
    t.memo == map[] && forall i :: i in t.deliveries ==> t.deliveries[i].wrapperRunId.Some?
  }

  lemma {:induction false} FanOutWraps(t: Tables, e: Event, pool: string, triggers: seq<Trigger>)
    requires AllWrapped(t)
    ensures AllWrapped(FanOut(t, e, pool, triggers)) && FanOut(t, e, pool, triggers).events == t.events
  {
    if triggers != [] { FanOutWraps(t, e, pool, triggers[..|triggers| - 1]); }
  }

  /** A pending row i driven by wrapper w, whose handler would start the job and has not yet. */
  ghost predicate Ripe(c: Config, t: Tables, i: Id, w: Id, job: string) {
    && i in t.deliveries && t.deliveries[i].wrapperRunId == Some(w)
    && w in t.runs && t.runs[w].origin.Wrapper? && t.runs[w].origin.deliveryId == i && w !in t.memo
    && Decide(c.reg, t, i) == SpawnJob(job) && w < t.nextId
  }

  /** The drained sample has a ripe row for the accepting trigger. */
  lemma DrainedServes(c: Config, kind: string, triggerId: string, payload: int)
    returns (actions: seq<Action>, s: State, i: Id, w: Id, job: string)
    requires Accepts(c.reg, kind, triggerId, payload)
    ensures Run(c, actions) == s && s.attempts == map[] && Ripe(c, s.t, i, w, job)
  {
    var e, t := Sample(c, kind, payload), Drained(c, kind, payload);
    actions := DrainedByRun(c, kind, payload);
    s := Run(c, actions);
    AlwaysInv(c, actions);
    assert Routable(e);
    FanOutWraps(InsertEvent(EMPTY, e), e, "events_change", TriggersOf(c.reg, kind));
    assert t.events[0] == EventRow(e, Some(0));
    FanOutAllOrNothing(c, actions, 0, triggerId);
    assert Registered(c.reg, kind, triggerId);
    i :| i in t.deliveries && t.deliveries[i].eventId == 0 && t.deliveries[i].triggerId == triggerId;
    w := t.deliveries[i].wrapperRunId.value;
    job := FindRegistryEntry(TriggersOf(c.reg, kind), triggerId).value.jobType;
  }

  // ---------------------------------------------------------------- attempts

  function BeforeSpawn(s: State, worker: nat, w: Id, i: Id): State {
    s.(attempts := s.attempts[worker := Attempt(w, i, AtLoad)])
  }

  function Spawned(s: State, worker: nat, w: Id, i: Id, job: string): State
    requires i in s.t.deliveries
  {
    s.(t := AddRun(s.t, BridgedRun(s.t, i, w, job)),
       attempts := s.attempts[worker := Attempt(w, i, AtRecord(s.t.nextId))])
  }

  lemma Begins(c: Config, actions: seq<Action>, s: State, worker: nat, i: Id, w: Id, job: string)
    requires Run(c, actions) == s && CanBegin(c, s, worker, w) && Ripe(c, s.t, i, w, job)
    ensures Run(c, actions + [Begin(worker, w)]) == BeforeSpawn(s, worker, w, i)
  {
    RunSnoc(c, actions, Begin(worker, w));
  }

  lemma LoadsAndFinds(c: Config, s: State, worker: nat, w: Id, i: Id, job: string)
    requires worker in s.attempts && s.attempts[worker] == Attempt(w, i, AtLoad)
    requires Ripe(c, s.t, i, w, job)
    ensures Step(c, Step(c, s, Load(worker)), FindStep(worker)) == Move(s, worker, AtSpawn(job))
  {
    var s1 := Step(c, s, Load(worker));
    assert s1 == Move(s, worker, AtFindStep(job));
  }

  /** An attempt that finds no recorded step, up to the start of the run. */
  lemma Spawns(c: Config, actions: seq<Action>, s: State, worker: nat, w: Id, i: Id, job: string)
    returns (more: seq<Action>)
    requires Run(c, actions) == s && worker in s.attempts && s.attempts[worker] == Attempt(w, i, AtLoad)
    requires Ripe(c, s.t, i, w, job)
    ensures Run(c, more) == Spawned(s, worker, w, i, job)
  {
    LoadsAndFinds(c, s, worker, w, i, job);
    RunSnoc(c, actions, Load(worker));
    RunSnoc(c, actions + [Load(worker)], FindStep(worker));
    RunSnoc(c, actions + [Load(worker)] + [FindStep(worker)], Spawn(worker));
    more := actions + [Load(worker)] + [FindStep(worker)] + [Spawn(worker)];
    assert Run(c, more).attempts == Spawned(s, worker, w, i, job).attempts;
  }

  /** Starting the job without recording it leaves the row ripe. */
  lemma StillRipe(c: Config, t: Tables, i: Id, w: Id, job: string)
    requires Ripe(c, t, i, w, job)
    ensures var u := AddRun(t, BridgedRun(t, i, w, job));
      && Ripe(c, u, i, w, job) && u.deliveries == t.deliveries
      && t.nextId in u.runs && u.runs[t.nextId].origin == Bridged(w)
  {
  }

  /** Two runs one wrapper started are two starts for its trigger. */
  lemma TwoStarts(c: Config, t: Tables, i: Id, w: Id, r: Id, q: Id)
    requires i in t.deliveries && t.deliveries[i].wrapperRunId == Some(w)
    requires r != q && r in t.runs && q in t.runs && t.runs[r].origin == Bridged(w) && t.runs[q].origin == Bridged(w)
    ensures |OnBehalf(c.reg, t, t.deliveries[i].eventId, t.deliveries[i].triggerId)| >= 2
  {
    var eventId, triggerId := t.deliveries[i].eventId, t.deliveries[i].triggerId;
    assert Serves(t, w, eventId, triggerId);
    assert {r, q} <= OnBehalf(c.reg, t, eventId, triggerId);
    SubsetSize({r, q}, OnBehalf(c.reg, t, eventId, triggerId));
  }

  /** The tables with two unrecorded starts. */
  function Twice(t: Tables, i: Id, w: Id, job: string): Tables
    requires i in t.deliveries
  {
    var once := AddRun(t, BridgedRun(t, i, w, job));
    AddRun(once, BridgedRun(once, i, w, job))
  }

  lemma TwiceStarts(c: Config, t: Tables, i: Id, w: Id, job: string)
    requires Ripe(c, t, i, w, job)
    ensures |OnBehalf(c.reg, Twice(t, i, w, job), t.deliveries[i].eventId, t.deliveries[i].triggerId)| >= 2
  {
    StillRipe(c, t, i, w, job);
    StillRipe(c, AddRun(t, BridgedRun(t, i, w, job)), i, w, job);
    TwoStarts(c, Twice(t, i, w, job), i, w, t.nextId, t.nextId + 1);
  }

  lemma DiesAndRetries(c: Config, actions: seq<Action>, s: State, i: Id, w: Id, job: string) returns (more: seq<Action>)
    requires !c.untorn && Run(c, actions) == s && s.attempts == map[] && Ripe(c, s.t, i, w, job)
    ensures Run(c, more).t == Twice(s.t, i, w, job)
  {
    StillRipe(c, s.t, i, w, job);
    Begins(c, actions, s, 0, i, w, job);
    var s1 := BeforeSpawn(s, 0, w, i);
    var a2 := Spawns(c, actions + [Begin(0, w)], s1, 0, w, i, job);
    var s2 := Spawned(s1, 0, w, i, job);
    RunSnoc(c, a2, Fail(0));
    var s3 := AfterFail(s2, 0);
    Begins(c, a2 + [Fail(0)], s3, 0, i, w, job);
    more := Spawns(c, a2 + [Fail(0)] + [Begin(0, w)], BeforeSpawn(s3, 0, w, i), 0, w, i, job);
  }

  /** An attempt that dies after starting the run and before recording the step starts it again on
      the retry, whatever the configuration, as soon as some trigger starts anything. */
  lemma TornAttemptStartsTwice(c: Config)
    requires !c.untorn && Serviceable(c.reg)
    ensures !StartsOnce(c)
  {
    var kind: string, triggerId: string, payload: int :| Accepts(c.reg, kind, triggerId, payload);
    var a0, s0, i, w, job := DrainedServes(c, kind, triggerId, payload);
    var actions := DiesAndRetries(c, a0, s0, i, w, job);
    TwiceStarts(c, s0.t, i, w, job);
    var d := s0.t.deliveries[i];
    assert |OnBehalf(c.reg, Run(c, actions).t, d.eventId, d.triggerId)| >= 2;
  }

  lemma BothBegin(c: Config, actions: seq<Action>, s: State, i: Id, w: Id, job: string)
    requires !c.exclusive && Run(c, actions) == s && s.attempts == map[] && Ripe(c, s.t, i, w, job)
    ensures Run(c, actions + [Begin(0, w)] + [Begin(1, w)]) == BeforeSpawn(BeforeSpawn(s, 0, w, i), 1, w, i)
  {
    Begins(c, actions, s, 0, i, w, job);
    Begins(c, actions + [Begin(0, w)], BeforeSpawn(s, 0, w, i), 1, i, w, job);
  }

  /** Two attempts of one wrapper, both past their start. */
  lemma Overlap(c: Config, actions: seq<Action>, s: State, i: Id, w: Id, job: string) returns (more: seq<Action>)
    requires !c.exclusive && Run(c, actions) == s && s.attempts == map[] && Ripe(c, s.t, i, w, job)
    ensures var n := s.t.nextId;
      Run(c, more) == s.(t := Twice(s.t, i, w, job),
                         attempts := map[0 := Attempt(w, i, AtRecord(n)), 1 := Attempt(w, i, AtRecord(n + 1))])
  {
    StillRipe(c, s.t, i, w, job);
    BothBegin(c, actions, s, i, w, job);
    var s2 := BeforeSpawn(BeforeSpawn(s, 0, w, i), 1, w, i);
    var a3 := Spawns(c, actions + [Begin(0, w)] + [Begin(1, w)], s2, 0, w, i, job);
    more := Spawns(c, a3, Spawned(s2, 0, w, i, job), 1, w, i, job);
    assert Run(c, more).attempts ==
      map[0 := Attempt(w, i, AtRecord(s.t.nextId)), 1 := Attempt(w, i, AtRecord(s.t.nextId + 1))];
  }

  /** Two overlapping attempts of one wrapper both find no recorded step. */
  lemma OverlappingAttemptsStartTwice(c: Config)
    requires !c.exclusive && Serviceable(c.reg)
    ensures !StartsOnce(c)
  {
    var kind: string, triggerId: string, payload: int :| Accepts(c.reg, kind, triggerId, payload);
    var a0, s0, i, w, job := DrainedServes(c, kind, triggerId, payload);
    var actions := Overlap(c, a0, s0, i, w, job);
    TwiceStarts(c, s0.t, i, w, job);
    var d := s0.t.deliveries[i];
    assert |OnBehalf(c.reg, Run(c, actions).t, d.eventId, d.triggerId)| >= 2;
  }

  /** For each configuration: at most one start per trigger is guaranteed exactly when attempts of a
      wrapper run one at a time and none dies between the start and its record, or no trigger of the
      registry starts anything. */
  lemma AtMostOneRunExactly(c: Config)
    ensures StartsOnce(c) <==> (c.exclusive && c.untorn) || !Serviceable(c.reg)
  {
    if !Serviceable(c.reg) { NoTriggerStartsOnce(c); }
    else if !c.untorn { TornAttemptStartsTwice(c); }
    else if !c.exclusive { OverlappingAttemptsStartTwice(c); }
    else { AtMostOneRun(c); }
  }

  // ---------------------------------------------------------------- user runs of rows

  /** No continuation of any run changes a user run a row already has. */
  ghost predicate UserRunsKept(c: Config) {
    forall before: seq<Action>, after: seq<Action> :: RunsStay(Run(c, before).t, Run(c, before + after).t)
  }

  lemma RecordsAndMarks(c: Config, actions: seq<Action>, s: State, worker: nat, w: Id, i: Id, r: Id)
    requires Run(c, actions) == s && worker in s.attempts && s.attempts[worker] == Attempt(w, i, AtRecord(r))
    requires i in s.t.deliveries
    ensures Run(c, actions + [Record(worker)] + [Mark(worker)]) ==
      s.(t := MarkDelivered(RecordStep(s.t, w, r), i, r), attempts := s.attempts - {worker})
  {
    RunSnoc(c, actions, Record(worker));
    RunSnoc(c, actions + [Record(worker)], Mark(worker));
    var s1 := AfterRecord(s, worker);
    assert s1.attempts - {worker} == s.attempts - {worker};
  }

  lemma MarkedTwice(c: Config, t: Tables, i: Id, w: Id, job: string)
    requires Ripe(c, t, i, w, job)
    ensures var u := MarkDelivered(RecordStep(Twice(t, i, w, job), w, t.nextId), i, t.nextId);
      !RunsStay(u, MarkDelivered(RecordStep(u, w, t.nextId + 1), i, t.nextId + 1))
  {
    var u := MarkDelivered(RecordStep(Twice(t, i, w, job), w, t.nextId), i, t.nextId);
    assert i in u.deliveries && u.deliveries[i].userRunId == Some(t.nextId);
  }

  /** The two overlapping attempts record and mark one after the other. */
  lemma BothMark(c: Config, actions: seq<Action>, s: State, i: Id, w: Id, job: string, n: Id)
    requires Run(c, actions) == s && i in s.t.deliveries
    requires s.attempts == map[0 := Attempt(w, i, AtRecord(n)), 1 := Attempt(w, i, AtRecord(n + 1))]
    ensures var u := MarkDelivered(RecordStep(s.t, w, n), i, n);
      && Run(c, actions + [Record(0)] + [Mark(0)]).t == u
      && Run(c, actions + [Record(0)] + [Mark(0)] + [Record(1)] + [Mark(1)]).t ==
         MarkDelivered(RecordStep(u, w, n + 1), i, n + 1)
  {
    RecordsAndMarks(c, actions, s, 0, w, i, n);
    var before := actions + [Record(0)] + [Mark(0)];
    RecordsAndMarks(c, before, Run(c, before), 1, w, i, n + 1);
  }

  lemma SwapsRun(c: Config, actions: seq<Action>, s: State, i: Id, w: Id, job: string) returns (before: seq<Action>)
    requires !c.exclusive && Run(c, actions) == s && s.attempts == map[] && Ripe(c, s.t, i, w, job)
    ensures !RunsStay(Run(c, before).t, Run(c, before + [Record(1), Mark(1)]).t)
  {
    var started := Overlap(c, actions, s, i, w, job);
    BothMark(c, started, Run(c, started), i, w, job, s.t.nextId);
    MarkedTwice(c, s.t, i, w, job);
    before := started + [Record(0)] + [Mark(0)];
    assert before + [Record(1), Mark(1)] == before + [Record(1)] + [Mark(1)];
  }

  /** Each of two overlapping attempts marks the row with the run it started itself. */
  lemma OverlappingAttemptsSwapRuns(c: Config)
    requires !c.exclusive && Serviceable(c.reg)
    ensures !UserRunsKept(c)
  {
    var kind: string, triggerId: string, payload: int :| Accepts(c.reg, kind, triggerId, payload);
    var a0, s0, i, w, job := DrainedServes(c, kind, triggerId, payload);
    var before := SwapsRun(c, a0, s0, i, w, job);
    assert !RunsStay(Run(c, before).t, Run(c, before + [Record(1), Mark(1)]).t);
  }

  /** A row's user run never changes exactly when attempts of a wrapper run one at a time, or no
      trigger starts anything. */
  lemma UserRunsKeptExactly(c: Config)
    ensures UserRunsKept(c) <==> c.exclusive || !Serviceable(c.reg)
  {
    if c.exclusive || !Serviceable(c.reg) {
      forall before: seq<Action>, after: seq<Action> ensures RunsStay(Run(c, before).t, Run(c, before + after).t) {
        LedgerIsMonotone(c, before, after);
      }
    } else {
      OverlappingAttemptsSwapRuns(c);
    }
  }

  // ---------------------------------------------------------------- clocks that are set back

  /** No run ever stamps an event before its occurredAt. */
  ghost predicate StampsInTime(c: Config) {
    forall actions: seq<Action> :: StampedInTime(Run(c, actions))
  }

  /** In no run does a drainer ever hold a row that is not due by its clock. */
  ghost predicate HoldsOnlyDue(c: Config) {
    forall actions: seq<Action> :: HoldsDue(Run(c, actions))
  }

  /** An event that is due at 1, not before. */
  function DueAtOne(c: Config): Event {
    Sample(c, "change", 0).(occurredAt := 1)
  }

  lemma ClaimsAtOne(c: Config) returns (actions: seq<Action>)
    ensures Run(c, actions) ==
      State(InsertEvent(EMPTY, DueAtOne(c)), map[0 := 1], map[0 := [DueAtOne(c)]], map[], {})
  {
    var e := DueAtOne(c);
    var t := InsertEvent(EMPTY, e);
    RunSnoc(c, [], Publish(e));
    assert Run(c, [] + [Publish(e)]) == START.(t := t);
    RunSnoc(c, [] + [Publish(e)], SetClock(0, 1));
    assert Run(c, [] + [Publish(e)] + [SetClock(0, 1)]) == START.(t := t, clocks := map[0 := 1]);
    assert Claims([e], 0) by { assert [e][0].id == 0; }
    RunSnoc(c, [] + [Publish(e)] + [SetClock(0, 1)], Claim(0, {}, [e]));
    actions := [] + [Publish(e)] + [SetClock(0, 1)] + [Claim(0, {}, [e])];
  }

  lemma StampAt(reg: Registry, e: Event, now: int)
    ensures var u := DrainTx(reg, InsertEvent(EMPTY, e), e, now);
      e.id in u.events && u.events[e.id] == EventRow(e, Some(now))
  {
    if Routable(e) { FanOutFresh(InsertEvent(EMPTY, e), e, WrapperPool(e.direction).value, TriggersOf(reg, e.kind)); }
  }

  lemma SetsBack(c: Config) returns (actions: seq<Action>)
    requires !c.monotone
    ensures Run(c, actions) ==
      State(InsertEvent(EMPTY, DueAtOne(c)), map[0 := 0], map[0 := [DueAtOne(c)]], map[], {})
  {
    var a := ClaimsAtOne(c);
    RunSnoc(c, a, SetClock(0, 0));
    actions := a + [SetClock(0, 0)];
    assert Run(c, actions).clocks == map[0 := 0];
  }

  /** Set back between claim and stamp, a clock makes the drainer hold and stamp a row too early. */
  lemma ClockSetBackStampsEarly(c: Config)
    requires !c.monotone
    ensures !StampsInTime(c) && !HoldsOnlyDue(c)
  {
    var actions := SetsBack(c);
    var s := Run(c, actions);
    assert !HoldsDue(s) by { assert s.held[0][0].occurredAt > ClockOf(s, 0); }
    RunSnoc(c, actions, Drain(0, true));
    StampAt(c.reg, DueAtOne(c), 0);
    assert !StampedInTime(Run(c, actions + [Drain(0, true)]));
  }

  /** For each configuration: stamps are never early, and held rows always due, exactly when no
      drainer's clock is ever set back. */
  lemma NeverEarlyExactly(c: Config)
    ensures StampsInTime(c) <==> c.monotone
    ensures HoldsOnlyDue(c) <==> c.monotone
  {
    if c.monotone {
      forall actions: seq<Action> ensures StampedInTime(Run(c, actions)) && HoldsDue(Run(c, actions)) {
        NeverEarly(c, actions);
      }
    } else {
      ClockSetBackStampsEarly(c);
    }
  }
}
