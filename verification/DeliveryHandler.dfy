/** The job handler that runs one wrapper: load the row, decide on it, start the user run once, close the
    row; and what a retry after a failed attempt comes to. */
module DeliveryHandler {
  import opened Options
  import opened BridgeTables
  import opened BridgeDatabase
  import opened BridgeProtocol

  /** Where an attempt dies, if it does: just before a ledger update, before the user run is
      started, or between the start and its step record. */
  datatype Death = Never | BeforeLedger | BeforeStart | BeforeRecord

  datatype Outcome = RunStarted(runId: Id) | SkippedFor(reason: string)

  /** The tables after an attempt that is to start the user run and finds no recorded step. */
  function StartEffect(t: Tables, i: Id, wrapper: Id, jobType: string, death: Death): Tables
    requires i in t.deliveries
  {
    if death == BeforeStart then t
    else
      var started := AddRun(t, BridgedRun(t, i, wrapper, jobType));
      if death == BeforeRecord then started
      else
        var recorded := RecordStep(started, wrapper, t.nextId);
        if death == BeforeLedger then recorded else MarkDelivered(recorded, i, t.nextId)
  }

  /** The tables after one attempt. */
  function AttemptEffect(reg: Registry, t: Tables, wrapper: Id, death: Death): Tables
    requires wrapper in t.runs && t.runs[wrapper].origin.Wrapper?
  {
    var i := t.runs[wrapper].origin.deliveryId;
    match Decide(reg, t, i)
    case Missing => t
    case SkipFor(reason) => if death == BeforeLedger then t else MarkSkipped(t, i, reason)
    case SpawnJob(job) =>
      if wrapper !in t.memo then StartEffect(t, i, wrapper, job, death)
      else if death == BeforeLedger then t
      else MarkDelivered(t, i, t.memo[wrapper])
  }

  /** Run r is the one started, and the job of a trigger of row i's event and trigger id that accepts its payload. */
  ghost predicate StartedJob(reg: Registry, t: Tables, i: Id, u: Tables, r: Id, wrapper: Id) {
    && i in t.deliveries && t.deliveries[i].eventId in t.events && r == t.nextId && r in u.runs
    && var d, run := t.deliveries[i], u.runs[r];
       var e := t.events[d.eventId].event;
       && u.runs == t.runs[r := run] && run.origin == Bridged(wrapper) && run.triggerRef == d.eventId
       && e.kind in reg && exists x ::
            x in reg[e.kind] && x.triggerId == d.triggerId && x.when(e.payload) && x.jobType == run.jobType
  }

  class BridgeDeliveryHandler {
    const registry: Registry

    constructor (registry: Registry)
      ensures this.registry == registry
    {
      this.registry := registry;
    }

    /** ctx.step('spawn_user_run', …) around IJobOrchestrator.start. */
    method SpawnStep(db: Database, wrapper: Id, deliveryId: Id, jobType: string, death: Death)
      returns (r: Result<Id, DbError>)
      requires deliveryId in db.t.deliveries
      modifies db
      ensures old(wrapper in db.t.memo) ==> r == Ok(old(db.t.memo)[wrapper]) && db.t == old(db.t)
      ensures old(wrapper !in db.t.memo) ==>
        var started := AddRun(old(db.t), BridgedRun(old(db.t), deliveryId, wrapper, jobType));
        && r == (if death == BeforeStart || death == BeforeRecord then Err(Infrastructure) else Ok(old(db.t.nextId)))
        && db.t == (if death == BeforeStart then old(db.t)
                    else if death == BeforeRecord then started
                    else RecordStep(started, wrapper, old(db.t.nextId)))
    {
      if wrapper in db.t.memo { return Ok(db.t.memo[wrapper]); }
      if death == BeforeStart { return Err(Infrastructure); }
      var run := BridgedRun(db.t, deliveryId, wrapper, jobType);
      var runId := db.t.nextId;
      db.t := AddRun(db.t, run);
      if death == BeforeRecord { return Err(Infrastructure); }
      db.t := RecordStep(db.t, wrapper, runId);
      r := Ok(runId);
    }

    method Run(db: Database, wrapper: Id, death: Death) returns (r: Result<Outcome, DbError>)
      requires wrapper in db.t.runs && db.t.runs[wrapper].origin.Wrapper?
      modifies db
      ensures db.t == AttemptEffect(registry, old(db.t), wrapper, death)
      ensures r.Ok? && r.value.RunStarted? ==>
        var i := old(db.t.runs)[wrapper].origin.deliveryId;
        i in db.t.deliveries && db.t.deliveries[i].status == Delivered &&
          db.t.deliveries[i].userRunId == Some(r.value.runId)
      ensures r.Ok? && r.value.RunStarted? && old(wrapper !in db.t.memo) ==>
        var i := old(db.t.runs)[wrapper].origin.deliveryId;
        StartedJob(registry, old(db.t), i, db.t, r.value.runId, wrapper)
      ensures r.Ok? && r.value.RunStarted? && old(wrapper in db.t.memo) ==>
        r.value.runId == old(db.t.memo)[wrapper] && db.t.runs == old(db.t.runs)
      ensures r.Ok? && r.value.SkippedFor? ==>
        var i := old(db.t.runs)[wrapper].origin.deliveryId;
        && db.t.runs == old(db.t.runs)
        && (i !in old(db.t.deliveries) ==> r.value.reason == "delivery_row_missing" && db.t == old(db.t))
        && (i in old(db.t.deliveries) ==>
              db.t.deliveries == old(db.t.deliveries)[
                i := old(db.t.deliveries)[i].(status := Skipped, skipReason := Some(r.value.reason))])
      ensures death == Never ==> r.Ok?
    {
      var deliveryId := db.t.runs[wrapper].origin.deliveryId;
      if deliveryId !in db.t.deliveries {
        return Ok(SkippedFor("delivery_row_missing"));
      }
      var delivery := db.t.deliveries[deliveryId];
      if delivery.eventId !in db.t.events {
        if death == BeforeLedger { return Err(Infrastructure); }
        db.t := MarkSkipped(db.t, deliveryId, "event_row_missing");
        return Ok(SkippedFor("event_row_missing"));
      }
      var event := db.t.events[delivery.eventId].event;
      var entry := FindRegistryEntry(TriggersOf(registry, event.kind), delivery.triggerId);
      if entry.None? {
        if death == BeforeLedger { return Err(Infrastructure); }
        db.t := MarkSkipped(db.t, deliveryId, "trigger_unregistered");
        return Ok(SkippedFor("trigger_unregistered"));
      }
      if !entry.value.when(event.payload) {
        if death == BeforeLedger { return Err(Infrastructure); }
        db.t := MarkSkipped(db.t, deliveryId, "predicate_false");
        return Ok(SkippedFor("predicate_false"));
      }
      var runId := SpawnStep(db, wrapper, deliveryId, entry.value.jobType, death);
      if runId.Err? { return Err(runId.error); }
      if death == BeforeLedger { return Err(Infrastructure); }
      db.t := MarkDelivered(db.t, deliveryId, runId.value);
      return Ok(RunStarted(runId.value));
    }
  }

  // ---------------------------------------------------------------- retries converge

  /** The attempt starts a user run and dies before recording it. */
  predicate Tears(reg: Registry, t: Tables, wrapper: Id, death: Death)
    requires wrapper in t.runs && t.runs[wrapper].origin.Wrapper?
  {
    death == BeforeRecord && wrapper !in t.memo && Decide(reg, t, t.runs[wrapper].origin.deliveryId).SpawnJob?
  }

  lemma AttemptGrows(reg: Registry, t: Tables, wrapper: Id, death: Death)
    requires FreshIds(t) && wrapper in t.runs && t.runs[wrapper].origin.Wrapper?
    ensures Grows(t, AttemptEffect(reg, t, wrapper, death))
  {
    var i := t.runs[wrapper].origin.deliveryId;
    var d := Decide(reg, t, i);
    if d.SpawnJob? && wrapper !in t.memo { StartGrows(t, i, wrapper, d.jobType, death); }
  }

  lemma StartGrows(t: Tables, i: Id, wrapper: Id, jobType: string, death: Death)
    requires FreshIds(t) && i in t.deliveries
    ensures Grows(t, StartEffect(t, i, wrapper, jobType, death))
  {
  }

  lemma SkipConverges(reg: Registry, t: Tables, wrapper: Id, death: Death)
    requires FreshIds(t) && ForeignKeys(t) && wrapper in t.runs && t.runs[wrapper].origin.Wrapper?
    requires !Decide(reg, t, t.runs[wrapper].origin.deliveryId).SpawnJob?
    ensures var first := AttemptEffect(reg, t, wrapper, death);
      first.runs == t.runs && AttemptEffect(reg, first, wrapper, Never) == AttemptEffect(reg, t, wrapper, Never)
  {
    var i := t.runs[wrapper].origin.deliveryId;
    var first := AttemptEffect(reg, t, wrapper, death);
    if i in t.deliveries {
      AttemptGrows(reg, t, wrapper, death);
      DecideStable(reg, t, first, i);
      assert AttemptEffect(reg, first, wrapper, Never).deliveries == AttemptEffect(reg, t, wrapper, Never).deliveries;
    }
  }

  lemma MemoConverges(reg: Registry, t: Tables, wrapper: Id, death: Death, job: string)
    requires FreshIds(t) && ForeignKeys(t) && wrapper in t.runs && t.runs[wrapper].origin.Wrapper?
    requires Decide(reg, t, t.runs[wrapper].origin.deliveryId) == SpawnJob(job) && wrapper in t.memo
    ensures var first := AttemptEffect(reg, t, wrapper, death);
      first.runs == t.runs && AttemptEffect(reg, first, wrapper, Never) == AttemptEffect(reg, t, wrapper, Never)
  {
    var first := AttemptEffect(reg, t, wrapper, death);
    AttemptGrows(reg, t, wrapper, death);
    DecideStable(reg, t, first, t.runs[wrapper].origin.deliveryId);
    assert AttemptEffect(reg, first, wrapper, Never).deliveries == AttemptEffect(reg, t, wrapper, Never).deliveries;
  }

  lemma SpawnConverges(reg: Registry, t: Tables, wrapper: Id, death: Death, job: string)
    requires FreshIds(t) && ForeignKeys(t) && wrapper in t.runs && t.runs[wrapper].origin.Wrapper?
    requires Decide(reg, t, t.runs[wrapper].origin.deliveryId) == SpawnJob(job) && wrapper !in t.memo
    requires death != BeforeStart && death != BeforeRecord
    ensures var first := AttemptEffect(reg, t, wrapper, death);
      && wrapper in first.runs && first.runs[wrapper] == t.runs[wrapper]
      && AttemptEffect(reg, first, wrapper, Never) == AttemptEffect(reg, t, wrapper, Never)
  {
    var first := AttemptEffect(reg, t, wrapper, death);
    AttemptGrows(reg, t, wrapper, death);
    DecideStable(reg, t, first, t.runs[wrapper].origin.deliveryId);
    assert first.memo[wrapper] == t.nextId;
    assert AttemptEffect(reg, first, wrapper, Never).deliveries == AttemptEffect(reg, t, wrapper, Never).deliveries;
  }

  lemma TornDiverges(reg: Registry, t: Tables, wrapper: Id)
    requires FreshIds(t) && ForeignKeys(t) && wrapper in t.runs && t.runs[wrapper].origin.Wrapper?
    requires Tears(reg, t, wrapper, BeforeRecord)
    ensures var first := AttemptEffect(reg, t, wrapper, BeforeRecord);
      && wrapper in first.runs && first.runs[wrapper] == t.runs[wrapper]
      && AttemptEffect(reg, first, wrapper, Never).nextId == AttemptEffect(reg, t, wrapper, Never).nextId + 1
  {
    AttemptGrows(reg, t, wrapper, BeforeRecord);
    DecideStable(reg, t, AttemptEffect(reg, t, wrapper, BeforeRecord), t.runs[wrapper].origin.deliveryId);
  }

  /** A further attempt after a failed one ends in the tables an attempt without a failure ends in,
      except exactly when the first one died after starting the user run and before recording it. */
  lemma RetryConvergesExactly(reg: Registry, t: Tables, wrapper: Id, death: Death)
    requires FreshIds(t) && ForeignKeys(t) && wrapper in t.runs && t.runs[wrapper].origin.Wrapper?
    ensures var first := AttemptEffect(reg, t, wrapper, death);
      && wrapper in first.runs && first.runs[wrapper] == t.runs[wrapper]
      && (AttemptEffect(reg, first, wrapper, Never) == AttemptEffect(reg, t, wrapper, Never) <==>
            !Tears(reg, t, wrapper, death))
  {
    match Decide(reg, t, t.runs[wrapper].origin.deliveryId)
    case Missing => SkipConverges(reg, t, wrapper, death);
    case SkipFor(_) => SkipConverges(reg, t, wrapper, death);
    case SpawnJob(job) =>
      if wrapper in t.memo { MemoConverges(reg, t, wrapper, death, job); }
      else if death == BeforeRecord { TornDiverges(reg, t, wrapper); }
      else if death != BeforeStart { SpawnConverges(reg, t, wrapper, death, job); }
  }

  // ---------------------------------------------------------------- attempts as protocol runs

  ghost function Continue(c: Config, s: State, actions: seq<Action>): State
    decreases |actions|
  {
    if actions == [] then s else Continue(c, Step(c, s, actions[0]), actions[1..])
  }

  lemma {:induction false} ContinueIsRun(c: Config, before: seq<Action>, after: seq<Action>)
    ensures Continue(c, Run(c, before), after) == Run(c, before + after)
    decreases |after|
  {
    if after == [] {
      assert before + after == before;
    } else {
      var b := before + [after[0]];
      assert b[..|b| - 1] == before;
      ContinueIsRun(c, b, after[1..]);
      assert b + after[1..] == before + after;
    }
  }

  lemma Next(c: Config, s: State, a: Action, rest: seq<Action>)
    ensures Continue(c, s, [a] + rest) == Continue(c, Step(c, s, a), rest)
  {
    assert ([a] + rest)[1..] == rest;
  }

  function Close(worker: nat, death: Death, last: Action): seq<Action> {
    [if death == BeforeLedger then Fail(worker) else last]
  }

  /** The rest of an attempt that starts the user run, from the start itself. */
  function StartTail(worker: nat, death: Death): seq<Action> {
    if death == BeforeRecord then [Fail(worker)] else [Record(worker)] + Close(worker, death, Mark(worker))
  }

  /** The rest of an attempt that is to start the user run, from the step lookup. */
  function StepTail(recorded: bool, worker: nat, death: Death): seq<Action> {
    if recorded then Close(worker, death, Mark(worker))
    else if death == BeforeStart then [Fail(worker)]
    else [Spawn(worker)] + StartTail(worker, death)
  }

  /** The protocol actions one attempt of `worker` performs after Begin and Load. */
  function AttemptBody(reg: Registry, t: Tables, worker: nat, wrapper: Id, death: Death): seq<Action>
    requires wrapper in t.runs && t.runs[wrapper].origin.Wrapper?
  {
    match Decide(reg, t, t.runs[wrapper].origin.deliveryId)
    case Missing => []
    case SkipFor(_) => Close(worker, death, Skip(worker))
    case SpawnJob(_) => [FindStep(worker)] + StepTail(wrapper in t.memo, worker, death)
  }

  function AttemptActions(reg: Registry, t: Tables, worker: nat, wrapper: Id, death: Death): seq<Action>
    requires wrapper in t.runs && t.runs[wrapper].origin.Wrapper?
  {
    [Begin(worker, wrapper)] + ([Load(worker)] + AttemptBody(reg, t, worker, wrapper, death))
  }

  lemma AttemptHead(c: Config, s: State, worker: nat, wrapper: Id, death: Death)
    requires CanBegin(c, s, worker, wrapper)
    ensures Continue(c, s, AttemptActions(c.reg, s.t, worker, wrapper, death)) ==
      Continue(c, AfterLoad(c, AfterBegin(s, worker, wrapper), worker), AttemptBody(c.reg, s.t, worker, wrapper, death))
  {
    var body := AttemptBody(c.reg, s.t, worker, wrapper, death);
    Next(c, s, Begin(worker, wrapper), [Load(worker)] + body);
    Next(c, AfterBegin(s, worker, wrapper), Load(worker), body);
  }

  /** The state after the first two actions, by what the handler decides. */
  lemma Loaded(c: Config, s: State, worker: nat, wrapper: Id, i: Id)
    requires CanBegin(c, s, worker, wrapper) && s.t.runs[wrapper].origin.deliveryId == i
    ensures AfterLoad(c, AfterBegin(s, worker, wrapper), worker) ==
      s.(attempts := match Decide(c.reg, s.t, i)
                     case Missing => s.attempts
                     case SkipFor(reason) => s.attempts[worker := Attempt(wrapper, i, AtSkip(reason))]
                     case SpawnJob(job) => s.attempts[worker := Attempt(wrapper, i, AtFindStep(job))])
  {
    assert AfterBegin(s, worker, wrapper).attempts - {worker} == s.attempts;
  }

  lemma SkippingAttempt(c: Config, s: State, worker: nat, wrapper: Id, i: Id, death: Death, reason: string)
    requires !At(s, worker)
    ensures var s2 := s.(attempts := s.attempts[worker := Attempt(wrapper, i, AtSkip(reason))]);
      Continue(c, s2, Close(worker, death, Skip(worker))) ==
      s.(t := if death == BeforeLedger then s.t else MarkSkipped(s.t, i, reason))
  {
    var s2 := s.(attempts := s.attempts[worker := Attempt(wrapper, i, AtSkip(reason))]);
    assert s2.attempts - {worker} == s.attempts;
    CloseAttempt(c, s, s2, worker, death, Skip(worker));
  }

  /** The attempt as a whole is one stretch of a protocol run: the same tables, nobody else's
      attempt disturbed, and the unrecorded run counted as lost. */
  lemma AttemptIsProtocolRun(c: Config, s: State, worker: nat, wrapper: Id, death: Death)
    requires CanBegin(c, s, worker, wrapper) && (c.untorn ==> death != BeforeRecord)
    ensures Continue(c, s, AttemptActions(c.reg, s.t, worker, wrapper, death)) ==
      s.(t := AttemptEffect(c.reg, s.t, wrapper, death),
         lost := if Tears(c.reg, s.t, wrapper, death) then s.lost + {s.t.nextId} else s.lost)
  {
    var i := s.t.runs[wrapper].origin.deliveryId;
    AttemptHead(c, s, worker, wrapper, death);
    Loaded(c, s, worker, wrapper, i);
    match Decide(c.reg, s.t, i)
    case Missing =>
    case SkipFor(reason) => SkippingAttempt(c, s, worker, wrapper, i, death, reason);
    case SpawnJob(job) =>
      SpawningAttempt(c, s, AfterLoad(c, AfterBegin(s, worker, wrapper), worker), worker, wrapper, death, job);
  }

  lemma CloseAttempt(c: Config, s: State, s1: State, worker: nat, death: Death, last: Action)
    requires worker !in s.attempts && At(s1, worker) && s1.attempts - {worker} == s.attempts
    requires (last == Skip(worker) && s1.attempts[worker].pc.AtSkip?) ||
      (last == Mark(worker) && s1.attempts[worker].pc.AtMark?)
    ensures Continue(c, s1, Close(worker, death, last)) ==
      s1.(attempts := s.attempts,
          t := if death == BeforeLedger then s1.t
               else if last.Skip? then MarkSkipped(s1.t, s1.attempts[worker].deliveryId, s1.attempts[worker].pc.reason)
               else MarkDelivered(s1.t, s1.attempts[worker].deliveryId, s1.attempts[worker].pc.runId))
  {
    var a := if death == BeforeLedger then Fail(worker) else last;
    assert Close(worker, death, last) == [a] + [];
    Next(c, s1, a, []);
  }

  lemma SpawningAttempt(c: Config, s: State, s2: State, worker: nat, wrapper: Id, death: Death, job: string)
    requires CanBegin(c, s, worker, wrapper) && (c.untorn ==> death != BeforeRecord)
    requires Decide(c.reg, s.t, s.t.runs[wrapper].origin.deliveryId) == SpawnJob(job)
    requires var i := s.t.runs[wrapper].origin.deliveryId;
      s2 == s.(attempts := s.attempts[worker := Attempt(wrapper, i, AtFindStep(job))])
    ensures Continue(c, s2, AttemptBody(c.reg, s.t, worker, wrapper, death)) ==
      s.(t := AttemptEffect(c.reg, s.t, wrapper, death),
         lost := if Tears(c.reg, s.t, wrapper, death) then s.lost + {s.t.nextId} else s.lost)
  {
    Next(c, s2, FindStep(worker), StepTail(wrapper in s.t.memo, worker, death));
    if wrapper in s.t.memo {
      var s3 := Move(s2, worker, AtMark(s.t.memo[wrapper]));
      assert s3.attempts - {worker} == s.attempts;
      CloseAttempt(c, s, s3, worker, death, Mark(worker));
    } else {
      var i := s.t.runs[wrapper].origin.deliveryId;
      assert Move(s2, worker, AtSpawn(job)).attempts == s.attempts[worker := Attempt(wrapper, i, AtSpawn(job))];
      StartingAttempt(c, s, worker, wrapper, i, death, job);
    }
  }

  lemma StartingAttempt(c: Config, s: State, worker: nat, wrapper: Id, i: Id, death: Death, job: string)
    requires !At(s, worker) && (c.untorn ==> death != BeforeRecord) && i in s.t.deliveries
    ensures var s3 := s.(attempts := s.attempts[worker := Attempt(wrapper, i, AtSpawn(job))]);
      Continue(c, s3, StepTail(false, worker, death)) ==
      s.(t := StartEffect(s.t, i, wrapper, job, death),
         lost := if death == BeforeRecord then s.lost + {s.t.nextId} else s.lost)
  {
    var s3 := s.(attempts := s.attempts[worker := Attempt(wrapper, i, AtSpawn(job))]);
    if death == BeforeStart {
      assert [Fail(worker)] == [Fail(worker)] + [];
      Next(c, s3, Fail(worker), []);
      assert s3.attempts - {worker} == s.attempts;
    } else {
      Next(c, s3, Spawn(worker), StartTail(worker, death));
      assert AfterSpawn(s3, worker).attempts == s.attempts[worker := Attempt(wrapper, i, AtRecord(s.t.nextId))];
      StartedAttempt(c, s, worker, wrapper, i, death, job);
    }
  }

  lemma StartedAttempt(c: Config, s: State, worker: nat, wrapper: Id, i: Id, death: Death, job: string)
    requires !At(s, worker) && (c.untorn ==> death != BeforeRecord) && death != BeforeStart && i in s.t.deliveries
    ensures
      var s4 := s.(t := AddRun(s.t, BridgedRun(s.t, i, wrapper, job)),
                   attempts := s.attempts[worker := Attempt(wrapper, i, AtRecord(s.t.nextId))]);
      Continue(c, s4, StartTail(worker, death)) ==
        s.(t := StartEffect(s.t, i, wrapper, job, death),
           lost := if death == BeforeRecord then s.lost + {s.t.nextId} else s.lost)
  {
    var s4 := s.(t := AddRun(s.t, BridgedRun(s.t, i, wrapper, job)),
                 attempts := s.attempts[worker := Attempt(wrapper, i, AtRecord(s.t.nextId))]);
    assert s4.attempts - {worker} == s.attempts;
    if death == BeforeRecord {
      assert [Fail(worker)] == [Fail(worker)] + [];
      Next(c, s4, Fail(worker), []);
    } else {
      Next(c, s4, Record(worker), Close(worker, death, Mark(worker)));
      var s5 := AfterRecord(s4, worker);
      assert s5.attempts - {worker} == s.attempts;
      CloseAttempt(c, s, s5, worker, death, Mark(worker));
    }
  }
}
