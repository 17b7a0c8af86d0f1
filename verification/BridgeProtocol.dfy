/** The whole bridge as a state machine: publishers, any number of drainers and any number of
    handler attempts interleave, one committed statement or transaction at a time. */
module BridgeProtocol {
  import opened BridgeTables
  import opened BridgeInvariant
  import opened OutboxClaim

  // ---------------------------------------------------------------- state

  /** Where a handler attempt stands between two of its committed statements. */
  datatype Pc =
    | AtLoad
    | AtSkip(reason: string)
    | AtFindStep(jobType: string)
    | AtSpawn(jobType: string)
    | AtRecord(runId: Id)
    | AtMark(runId: Id)

  datatype Attempt = Attempt(wrapper: Id, deliveryId: Id, pc: Pc)

  /** `held` are the claimed rows a drainer has yet to process; the row locks are gone by then.
      `lost` collects the user runs whose step record was never written because the attempt
      died between starting the run and recording it. */
  datatype State = State(
    t: Tables,
    clocks: map<nat, int>,
    held: map<nat, seq<Event>>,
    attempts: map<nat, Attempt>,
    lost: set<Id>)

  /** `exclusive`: the job worker never runs two attempts of one wrapper at once.
      `untorn`: no attempt dies between starting the user run and recording the step.
      `monotone`: no drainer's clock is ever set back. */
  datatype Config = Config(
    reg: Registry,
    pools: map<nat, seq<string>>,
    exclusive: bool,
    untorn: bool,
    monotone: bool)

  datatype Action =
    | SetClock(drainer: nat, now: int)
    | Publish(event: Event)
    | PublishAndStart(event: Event, jobType: string)
    | Claim(drainer: nat, locked: set<Id>, rows: seq<Event>)
    | Drain(drainer: nat, commits: bool)
    | Abandon(drainer: nat)
    | Begin(worker: nat, wrapper: Id)
    | Load(worker: nat)
    | Skip(worker: nat)
    | FindStep(worker: nat)
    | Spawn(worker: nat)
    | Record(worker: nat)
    | Mark(worker: nat)
    | Fail(worker: nat)

  const START := State(EMPTY, map[], map[], map[], {})

  /** What a drainer's own clock reads; no two need agree. */
  function ClockOf(s: State, drainer: nat): int {
    if drainer in s.clocks then s.clocks[drainer] else 0
  }

  function PoolsOf(c: Config, drainer: nat): seq<string> {
    if drainer in c.pools then c.pools[drainer] else []
  }

  predicate Holding(s: State, drainer: nat) {
    drainer in s.held && s.held[drainer] != []
  }

  predicate At(s: State, worker: nat) {
    worker in s.attempts
  }

  ghost predicate CanBegin(c: Config, s: State, w: nat, wrapper: Id) {
    && !At(s, w) && wrapper in s.t.runs && s.t.runs[wrapper].origin.Wrapper?
    && (c.exclusive ==> forall x :: x in s.attempts ==> s.attempts[x].wrapper != wrapper)
  }

  predicate CanFail(c: Config, s: State, w: nat) {
    At(s, w) && (c.untorn ==> !s.attempts[w].pc.AtRecord?)
  }

  ghost predicate Enabled(c: Config, s: State, a: Action) {
    match a
    case SetClock(d, now) => c.monotone ==> ClockOf(s, d) <= now
    case Publish(e) => CanInsertEvent(s.t, e)
    case PublishAndStart(e, _) => CanInsertEvent(s.t, e)
    case Claim(d, locked, rows) => !Holding(s, d) && IsClaim(s.t, PoolsOf(c, d), ClockOf(s, d), locked, rows)
    case Drain(d, _) => Holding(s, d)
    case Abandon(d) => Holding(s, d)
    case Begin(w, wrapper) => CanBegin(c, s, w, wrapper)
    case Load(w) => At(s, w) && s.attempts[w].pc.AtLoad?
    case Skip(w) => At(s, w) && s.attempts[w].pc.AtSkip?
    case FindStep(w) => At(s, w) && s.attempts[w].pc.AtFindStep?
    case Spawn(w) => At(s, w) && s.attempts[w].pc.AtSpawn? && s.attempts[w].deliveryId in s.t.deliveries
    case Record(w) => At(s, w) && s.attempts[w].pc.AtRecord?
    case Mark(w) => At(s, w) && s.attempts[w].pc.AtMark?
    case Fail(w) => CanFail(c, s, w)
  }

  function Move(s: State, worker: nat, pc: Pc): State
    requires worker in s.attempts
  {
    s.(attempts := s.attempts[worker := s.attempts[worker].(pc := pc)])
  }

  function Leave(s: State, worker: nat): State {
    s.(attempts := s.attempts - {worker})
  }

  function AfterDrain(c: Config, s: State, d: nat, commits: bool): State
    requires Holding(s, d)
  {
    s.(held := s.held[d := s.held[d][1..]],
       t := if commits then DrainTx(c.reg, s.t, s.held[d][0], ClockOf(s, d)) else s.t)
  }

  function AfterBegin(s: State, w: nat, wrapper: Id): State
    requires wrapper in s.t.runs && s.t.runs[wrapper].origin.Wrapper?
  {
    s.(attempts := s.attempts[w := Attempt(wrapper, s.t.runs[wrapper].origin.deliveryId, AtLoad)])
  }

  function AfterLoad(c: Config, s: State, w: nat): State
    requires At(s, w)
  {
    match Decide(c.reg, s.t, s.attempts[w].deliveryId)
    case Missing => Leave(s, w)
    case SkipFor(reason) => Move(s, w, AtSkip(reason))
    case SpawnJob(job) => Move(s, w, AtFindStep(job))
  }

  function AfterSkip(s: State, w: nat): State
    requires At(s, w) && s.attempts[w].pc.AtSkip?
  {
    Leave(s, w).(t := MarkSkipped(s.t, s.attempts[w].deliveryId, s.attempts[w].pc.reason))
  }

  /** ctx.step returns a completed step's output without running the body again. */
  function AfterFindStep(s: State, w: nat): State
    requires At(s, w) && s.attempts[w].pc.AtFindStep?
  {
    if s.attempts[w].wrapper in s.t.memo then Move(s, w, AtMark(s.t.memo[s.attempts[w].wrapper]))
    else Move(s, w, AtSpawn(s.attempts[w].pc.jobType))
  }

  function AfterSpawn(s: State, w: nat): State
    requires At(s, w) && s.attempts[w].pc.AtSpawn? && s.attempts[w].deliveryId in s.t.deliveries
  {
    Move(s, w, AtRecord(s.t.nextId)).(
      t := AddRun(s.t, BridgedRun(s.t, s.attempts[w].deliveryId, s.attempts[w].wrapper, s.attempts[w].pc.jobType)))
  }

  function AfterRecord(s: State, w: nat): State
    requires At(s, w) && s.attempts[w].pc.AtRecord?
  {
    Move(s, w, AtMark(s.attempts[w].pc.runId)).(t := RecordStep(s.t, s.attempts[w].wrapper, s.attempts[w].pc.runId))
  }

  function AfterMark(s: State, w: nat): State
    requires At(s, w) && s.attempts[w].pc.AtMark?
  {
    Leave(s, w).(t := MarkDelivered(s.t, s.attempts[w].deliveryId, s.attempts[w].pc.runId))
  }

  function AfterFail(s: State, w: nat): State
    requires At(s, w)
  {
    Leave(s, w).(lost := if s.attempts[w].pc.AtRecord? then s.lost + {s.attempts[w].pc.runId} else s.lost)
  }

  ghost function Apply(c: Config, s: State, a: Action): State
    requires Enabled(c, s, a)
  {
    match a
    case SetClock(d, now) => s.(clocks := s.clocks[d := now])
    case Publish(e) => s.(t := InsertEvent(s.t, e))
    case PublishAndStart(e, job) => s.(t := EagerTx(c.reg, s.t, e, job))
    case Claim(d, _, rows) => s.(held := s.held[d := rows])
    case Drain(d, commits) => AfterDrain(c, s, d, commits)
    case Abandon(d) => s.(held := s.held[d := []])
    case Begin(w, wrapper) => AfterBegin(s, w, wrapper)
    case Load(w) => AfterLoad(c, s, w)
    case Skip(w) => AfterSkip(s, w)
    case FindStep(w) => AfterFindStep(s, w)
    case Spawn(w) => AfterSpawn(s, w)
    case Record(w) => AfterRecord(s, w)
    case Mark(w) => AfterMark(s, w)
    case Fail(w) => AfterFail(s, w)
  }

  /** An action that is not enabled leaves the state as it is, so every sequence of actions is a run. */
  ghost function Step(c: Config, s: State, a: Action): State {
    if Enabled(c, s, a) then Apply(c, s, a) else s
  }

  ghost function Run(c: Config, actions: seq<Action>): State {
    if actions == [] then START
    else Step(c, Run(c, actions[..|actions| - 1]), actions[|actions| - 1])
  }

  // ---------------------------------------------------------------- the inductive invariant

  /** Held rows are rows of the table, and due by their holder's clock unless it can be set back. */
  ghost predicate HeldRows(c: Config, s: State) {
    forall d, k :: d in s.held && 0 <= k < |s.held[d]| ==>
      var e := s.held[d][k];
      e.id in s.t.events && s.t.events[e.id].event == e && (c.monotone ==> e.occurredAt <= ClockOf(s, d))
  }

  ghost predicate Batches(s: State) {
    forall d :: d in s.held ==> |s.held[d]| <= POLL_BATCH_SIZE
  }

  /** No row is stamped before its occurredAt. */
  ghost predicate StampedInTime(s: State) {
    forall id :: id in s.t.events && s.t.events[id].processedAt.Some? ==>
      s.t.events[id].event.occurredAt <= s.t.events[id].processedAt.value
  }

  ghost predicate RunOf(t: Tables, runId: Id, wrapper: Id) {
    runId in t.runs && t.runs[runId].origin == Bridged(wrapper)
  }

  ghost predicate AttemptOk(c: Config, t: Tables, lost: set<Id>, a: Attempt) {
    && a.wrapper in t.runs && t.runs[a.wrapper].origin.Wrapper? && t.runs[a.wrapper].origin.deliveryId == a.deliveryId
    && a.deliveryId in t.deliveries
    && match a.pc
       case AtLoad => true
       case AtSkip(reason) => Decide(c.reg, t, a.deliveryId) == SkipFor(reason)
       case AtFindStep(job) => Decide(c.reg, t, a.deliveryId) == SpawnJob(job)
       case AtSpawn(job) =>
         Decide(c.reg, t, a.deliveryId) == SpawnJob(job) && (c.exclusive ==> a.wrapper !in t.memo)
       case AtRecord(r) =>
         && Decide(c.reg, t, a.deliveryId).SpawnJob? && RunOf(t, r, a.wrapper)
         && (c.exclusive ==> a.wrapper !in t.memo && r !in lost)
       case AtMark(r) =>
         && Decide(c.reg, t, a.deliveryId).SpawnJob? && RunOf(t, r, a.wrapper)
         && (c.exclusive ==> a.wrapper in t.memo && t.memo[a.wrapper] == r)
  }

  ghost predicate AttemptsOk(c: Config, s: State) {
    forall w {:trigger AttemptOk(c, s.t, s.lost, s.attempts[w])} :: w in s.attempts ==>
      AttemptOk(c, s.t, s.lost, s.attempts[w])
  }

  ghost predicate OnePerWrapper(c: Config, s: State) {
    c.exclusive ==> forall w, x ::
      w in s.attempts && x in s.attempts && s.attempts[w].wrapper == s.attempts[x].wrapper ==> w == x
  }

  ghost predicate InFlight(s: State, wrapper: Id, runId: Id) {
    exists w :: w in s.attempts && s.attempts[w].wrapper == wrapper && s.attempts[w].pc == AtRecord(runId)
  }

  ghost predicate Accounted(s: State, r: Id)
    requires r in s.t.runs && s.t.runs[r].origin.Bridged?
  {
    var w := s.t.runs[r].origin.parent;
    r in s.lost || (w in s.t.memo && s.t.memo[w] == r) || InFlight(s, w, r)
  }

  /** Every user run a wrapper started is recorded, about to be recorded, or lost. */
  ghost predicate RunsAccounted(c: Config, s: State) {
    c.exclusive ==> forall r {:trigger Accounted(s, r)} :: r in s.t.runs && s.t.runs[r].origin.Bridged? ==>
      Accounted(s, r)
  }

  ghost predicate LostRuns(c: Config, s: State) {
    && (forall r :: r in s.lost ==> r in s.t.runs && s.t.runs[r].origin.Bridged?)
    && (c.untorn ==> s.lost == {})
  }

  /** What a wrapper-driven row's status says about the decision and the step record. */
  ghost predicate RowOk(c: Config, t: Tables, i: Id)
    requires i in t.deliveries && t.deliveries[i].wrapperRunId.Some?
  {
    var d := t.deliveries[i];
    var w := d.wrapperRunId.value;
    match d.status
    case Pending => d.userRunId.None? && d.skipReason.None?
    case Skipped => d.userRunId.None? && d.skipReason.Some? && Decide(c.reg, t, i) == SkipFor(d.skipReason.value)
    case Delivered =>
      && Decide(c.reg, t, i).SpawnJob? && d.skipReason.None? && d.userRunId.Some? && RunOf(t, d.userRunId.value, w)
      && (c.exclusive ==> w in t.memo && t.memo[w] == d.userRunId.value)
  }

  ghost predicate LedgerOk(c: Config, t: Tables) {
    forall i {:trigger RowOk(c, t, i)} :: i in t.deliveries && t.deliveries[i].wrapperRunId.Some? ==> RowOk(c, t, i)
  }

  ghost predicate Handlers(c: Config, s: State) {
    && AttemptsOk(c, s) && OnePerWrapper(c, s) && RunsAccounted(c, s) && LostRuns(c, s) && LedgerOk(c, s.t)
  }

  ghost predicate Drainers(c: Config, s: State) {
    HeldRows(c, s) && Batches(s) && (c.monotone ==> StampedInTime(s))
  }

  ghost predicate Inv(c: Config, s: State) {
    Committed(c.reg, s.t) && Drainers(c, s) && Handlers(c, s)
  }

  // ---------------------------------------------------------------- growth of the tables

  /** No fact a handler decides on changes. */
  ghost predicate Grows(t: Tables, u: Tables) {
    && (forall id :: id in t.events ==> id in u.events && u.events[id].event == t.events[id].event)
    && (forall r :: r in t.runs ==> r in u.runs && u.runs[r] == t.runs[r])
    && (forall i :: i in t.deliveries ==>
          && i in u.deliveries
          && u.deliveries[i].eventId == t.deliveries[i].eventId
          && u.deliveries[i].triggerId == t.deliveries[i].triggerId
          && u.deliveries[i].wrapperRunId == t.deliveries[i].wrapperRunId)
  }

  lemma DecideStable(reg: Registry, t: Tables, u: Tables, i: Id)
    requires Grows(t, u) && ForeignKeys(t) && i in t.deliveries
    ensures Decide(reg, u, i) == Decide(reg, t, i)
  {
  }

  /** What publishers and drainers may do: add rows, among them no user run of a wrapper. */
  ghost predicate Extends(t: Tables, u: Tables) {
    && u.memo == t.memo
    && (forall id :: id in t.events ==> id in u.events && u.events[id].event == t.events[id].event)
    && (forall r :: r in t.runs ==> r in u.runs && u.runs[r] == t.runs[r])
    && (forall r :: r in u.runs && r !in t.runs ==> !u.runs[r].origin.Bridged?)
    && (forall i :: i in t.deliveries ==> i in u.deliveries && u.deliveries[i] == t.deliveries[i])
    && (forall i :: i in u.deliveries && i !in t.deliveries && u.deliveries[i].wrapperRunId.Some? ==>
          u.deliveries[i].status == Pending && u.deliveries[i].userRunId.None? && u.deliveries[i].skipReason.None?)
  }

  lemma ExtendsTransitive(t: Tables, u: Tables, v: Tables)
    requires Extends(t, u) && Extends(u, v)
    ensures Extends(t, v)
  {
  }

  lemma {:induction false} PreWriteExtends(t: Tables, eventId: Id, runId: Id, triggers: seq<Trigger>)
    requires FreshIds(t)
    ensures Extends(t, PreWrite(t, eventId, runId, triggers))
  {
    if triggers != [] {
      var n := |triggers| - 1;
      PreWriteExtends(t, eventId, runId, triggers[..n]);
      PreWriteFrame(t, eventId, runId, triggers[..n]);
      var b := PreWrite(t, eventId, runId, triggers[..n]);
      assert Extends(b, PreWrite(t, eventId, runId, triggers));
      ExtendsTransitive(t, b, PreWrite(t, eventId, runId, triggers));
    }
  }

  lemma EagerTxExtends(reg: Registry, t: Tables, e: Event, jobType: string)
    requires FreshIds(t) && e.id !in t.events
    ensures Extends(t, EagerTx(reg, t, e, jobType))
  {
    var b := WithEagerRun(t, e, jobType);
    assert Extends(t, b);
    PreWriteExtends(b, e.id, t.nextId, Matching(TriggersOf(reg, e.kind), jobType));
    ExtendsTransitive(t, b, EagerTx(reg, t, e, jobType));
  }

  lemma FanOutOneExtends(t: Tables, e: Event, pool: string, triggerId: string)
    requires FreshIds(t)
    ensures Extends(t, FanOutOne(t, e, pool, triggerId))
  {
  }

  lemma {:induction false} FanOutExtends(t: Tables, e: Event, pool: string, triggers: seq<Trigger>)
    requires FreshIds(t)
    ensures Extends(t, FanOut(t, e, pool, triggers))
  {
    if triggers != [] {
      var n := |triggers| - 1;
      FanOutExtends(t, e, pool, triggers[..n]);
      FanOutFresh(t, e, pool, triggers[..n]);
      var b := FanOut(t, e, pool, triggers[..n]);
      FanOutOneExtends(b, e, pool, triggers[n].triggerId);
      ExtendsTransitive(t, b, FanOut(t, e, pool, triggers));
    }
  }

  lemma DrainTxExtends(reg: Registry, t: Tables, e: Event, now: int)
    requires FreshIds(t)
    ensures Extends(t, DrainTx(reg, t, e, now))
  {
    if Routable(e) { FanOutExtends(t, e, WrapperPool(e.direction).value, TriggersOf(reg, e.kind)); }
    assert Extends(HookEffect(reg, t, e), DrainTx(reg, t, e, now));
    ExtendsTransitive(t, HookEffect(reg, t, e), DrainTx(reg, t, e, now));
  }

  lemma ExtendsLedger(c: Config, t: Tables, u: Tables)
    requires ForeignKeys(t) && LedgerOk(c, t) && Extends(t, u)
    ensures LedgerOk(c, u)
  {
    forall i | i in u.deliveries && u.deliveries[i].wrapperRunId.Some? ensures RowOk(c, u, i) {
      if i in t.deliveries {
        assert RowOk(c, t, i);
        DecideStable(c.reg, t, u, i);
      }
    }
  }

  lemma ExtendsAttempts(c: Config, s: State, u: Tables)
    requires ForeignKeys(s.t) && AttemptsOk(c, s) && RunsAccounted(c, s) && Extends(s.t, u)
    ensures AttemptsOk(c, s.(t := u)) && RunsAccounted(c, s.(t := u))
  {
    var s' := s.(t := u);
    forall w | w in s'.attempts ensures AttemptOk(c, u, s.lost, s'.attempts[w]) {
      assert AttemptOk(c, s.t, s.lost, s.attempts[w]);
      DecideStable(c.reg, s.t, u, s.attempts[w].deliveryId);
    }
    if c.exclusive {
      forall r | r in u.runs && u.runs[r].origin.Bridged? ensures Accounted(s', r) {
        assert Accounted(s, r);
        assert InFlight(s, u.runs[r].origin.parent, r) ==> InFlight(s', u.runs[r].origin.parent, r);
      }
    }
  }

  lemma ExtendsHandlers(c: Config, s: State, u: Tables)
    requires ForeignKeys(s.t) && Handlers(c, s) && Extends(s.t, u)
    ensures Handlers(c, s.(t := u))
  {
    ExtendsLedger(c, s.t, u);
    ExtendsAttempts(c, s, u);
  }

  // ---------------------------------------------------------------- publishers and drainers

  /** A step that only adds events, or stamps one of them no earlier than its occurredAt. */
  lemma DrainersFrame(c: Config, s: State, s': State)
    requires Drainers(c, s) && s'.held == s.held && s'.clocks == s.clocks
    requires forall id :: id in s.t.events ==> id in s'.t.events && s'.t.events[id].event == s.t.events[id].event
    requires forall id :: id in s'.t.events && s'.t.events[id].processedAt.Some? ==>
      id in s.t.events && s.t.events[id].processedAt == s'.t.events[id].processedAt
    ensures Drainers(c, s')
  {
  }

  lemma PublishKeeps(c: Config, s: State, e: Event)
    requires Inv(c, s) && CanInsertEvent(s.t, e)
    ensures Inv(c, s.(t := InsertEvent(s.t, e)))
  {
    InsertEventKeeps(c.reg, s.t, e);
    PublishHandlers(c, s, e);
    PublishDrainers(c, s, e);
  }

  lemma PublishHandlers(c: Config, s: State, e: Event)
    requires ForeignKeys(s.t) && Handlers(c, s) && CanInsertEvent(s.t, e)
    ensures Handlers(c, s.(t := InsertEvent(s.t, e)))
  {
    ExtendsHandlers(c, s, InsertEvent(s.t, e));
  }

  lemma PublishDrainers(c: Config, s: State, e: Event)
    requires Drainers(c, s) && CanInsertEvent(s.t, e)
    ensures Drainers(c, s.(t := InsertEvent(s.t, e)))
  {
    DrainersFrame(c, s, s.(t := InsertEvent(s.t, e)));
  }

  lemma PublishAndStartKeeps(c: Config, s: State, e: Event, jobType: string)
    requires Inv(c, s) && CanInsertEvent(s.t, e)
    ensures Inv(c, s.(t := EagerTx(c.reg, s.t, e, jobType)))
  {
    var u := EagerTx(c.reg, s.t, e, jobType);
    EagerTxKeeps(c.reg, s.t, e, jobType);
    EagerTxExtends(c.reg, s.t, e, jobType);
    ExtendsHandlers(c, s, u);
    PreWriteFrame(WithEagerRun(s.t, e, jobType), e.id, s.t.nextId, Matching(TriggersOf(c.reg, e.kind), jobType));
    DrainersFrame(c, s, s.(t := u));
  }

  lemma DrainTxDrainers(c: Config, s: State, d: nat)
    requires Drainers(c, s) && FreshIds(s.t) && Holding(s, d)
    ensures Drainers(c, AfterDrain(c, s, d, true))
  {
    var s' := AfterDrain(c, s, d, true);
    var e := s.held[d][0];
    if Routable(e) { FanOutFresh(s.t, e, WrapperPool(e.direction).value, TriggersOf(c.reg, e.kind)); }
    assert s'.t.events.Keys == s.t.events.Keys;
    assert forall id :: id in s.t.events ==> s'.t.events[id].event == s.t.events[id].event;
    assert forall id :: id in s.t.events && id != e.id ==> s'.t.events[id] == s.t.events[id];
    assert forall k :: 0 <= k < |s'.held[d]| ==> s'.held[d][k] == s.held[d][k + 1];
  }

  lemma DrainKeeps(c: Config, s: State, d: nat, commits: bool)
    requires Inv(c, s) && Holding(s, d)
    ensures Inv(c, AfterDrain(c, s, d, commits))
  {
    var s' := AfterDrain(c, s, d, commits);
    if commits {
      var e := s.held[d][0];
      DrainTxKeeps(c.reg, s.t, e, ClockOf(s, d));
      DrainTxExtends(c.reg, s.t, e, ClockOf(s, d));
      ExtendsHandlers(c, s, s'.t);
      assert Handlers(c, s') by { SameHandlers(c, s.(t := s'.t), s'); }
      DrainTxDrainers(c, s, d);
    } else {
      SameHandlers(c, s, s');
    }
  }

  lemma SameHandlers(c: Config, s: State, s': State)
    requires Handlers(c, s) && s'.t == s.t && s'.attempts == s.attempts && s'.lost == s.lost
    ensures Handlers(c, s')
  {
    if c.exclusive {
      forall r | r in s'.t.runs && s'.t.runs[r].origin.Bridged? ensures Accounted(s', r) {
        assert Accounted(s, r);
        assert InFlight(s, s.t.runs[r].origin.parent, r) ==> InFlight(s', s.t.runs[r].origin.parent, r);
      }
    }
  }

  lemma ClaimKeeps(c: Config, s: State, d: nat, locked: set<Id>, rows: seq<Event>)
    requires Drainers(c, s) && IsClaim(s.t, PoolsOf(c, d), ClockOf(s, d), locked, rows)
    ensures Drainers(c, s.(held := s.held[d := rows]))
  {
  }

  // ---------------------------------------------------------------- handler attempts

  lemma NoLedgerMove(c: Config, s: State, s': State, w: nat)
    requires AttemptsOk(c, s) && OnePerWrapper(c, s) && RunsAccounted(c, s) && w in s.attempts
    requires s'.t == s.t && s'.lost == s.lost
    requires !s.attempts[w].pc.AtRecord?
    requires s' == Leave(s, w) ||
             (w in s'.attempts && s'.attempts == s.attempts[w := s.attempts[w].(pc := s'.attempts[w].pc)]
              && AttemptOk(c, s.t, s.lost, s'.attempts[w]))
    ensures AttemptsOk(c, s') && OnePerWrapper(c, s') && RunsAccounted(c, s')
  {
    if c.exclusive {
      forall r | r in s'.t.runs && s'.t.runs[r].origin.Bridged? ensures Accounted(s', r) {
        assert Accounted(s, r);
        var p := s.t.runs[r].origin.parent;
        if InFlight(s, p, r) {
          var x :| x in s.attempts && s.attempts[x].wrapper == p && s.attempts[x].pc == AtRecord(r);
          assert x != w && x in s'.attempts && s'.attempts[x] == s.attempts[x];
        }
      }
    }
  }

  /** A step that touches neither tables nor drainers. */
  lemma Quiet(c: Config, s: State, s': State)
    requires Inv(c, s) && s'.t == s.t && s'.held == s.held && s'.clocks == s.clocks
    requires Handlers(c, s')
    ensures Inv(c, s')
  {
    assert Drainers(c, s') by { DrainersFrame(c, s, s'); }
  }

  lemma BeginHandlers(c: Config, s: State, w: nat, wrapper: Id)
    requires AttemptsOk(c, s) && OnePerWrapper(c, s) && RunsAccounted(c, s) && Bijection(s.t) &&
      CanBegin(c, s, w, wrapper)
    ensures var s' := AfterBegin(s, w, wrapper); AttemptsOk(c, s') && OnePerWrapper(c, s') && RunsAccounted(c, s')
  {
    var s' := AfterBegin(s, w, wrapper);
    if c.exclusive {
      forall r | r in s'.t.runs && s'.t.runs[r].origin.Bridged? ensures Accounted(s', r) {
        assert Accounted(s, r);
        var p := s.t.runs[r].origin.parent;
        if InFlight(s, p, r) {
          var x :| x in s.attempts && s.attempts[x].wrapper == p && s.attempts[x].pc == AtRecord(r);
          assert x in s'.attempts && s'.attempts[x] == s.attempts[x];
        }
      }
    }
  }

  lemma BeginKeeps(c: Config, s: State, w: nat, wrapper: Id)
    requires Inv(c, s) && CanBegin(c, s, w, wrapper)
    ensures Inv(c, AfterBegin(s, w, wrapper))
  {
    BeginHandlers(c, s, w, wrapper);
    Quiet(c, s, AfterBegin(s, w, wrapper));
  }

  /** An attempt moves on without a write. */
  lemma MoveKeeps(c: Config, s: State, w: nat, pc: Pc)
    requires Inv(c, s) && At(s, w) && !s.attempts[w].pc.AtRecord?
    requires AttemptOk(c, s.t, s.lost, s.attempts[w].(pc := pc))
    ensures Inv(c, Move(s, w, pc))
  {
    assert Handlers(c, Move(s, w, pc)) by { NoLedgerMove(c, s, Move(s, w, pc), w); }
    Quiet(c, s, Move(s, w, pc));
  }

  lemma LoadAttempt(c: Config, s: State, w: nat) returns (pc: Pc)
    requires AttemptsOk(c, s) && At(s, w) && s.attempts[w].pc.AtLoad?
    ensures AfterLoad(c, s, w) == Move(s, w, pc) && AttemptOk(c, s.t, s.lost, s.attempts[w].(pc := pc))
  {
    assert AttemptOk(c, s.t, s.lost, s.attempts[w]);
    pc := AfterLoad(c, s, w).attempts[w].pc;
  }

  lemma LoadKeeps(c: Config, s: State, w: nat)
    requires Inv(c, s) && At(s, w) && s.attempts[w].pc.AtLoad?
    ensures Inv(c, AfterLoad(c, s, w))
  {
    var pc := LoadAttempt(c, s, w);
    MoveKeeps(c, s, w, pc);
  }

  lemma FindStepAttempt(c: Config, s: State, w: nat) returns (pc: Pc)
    requires AttemptsOk(c, s) && BridgedParents(s.t) && At(s, w) && s.attempts[w].pc.AtFindStep?
    ensures AfterFindStep(s, w) == Move(s, w, pc) && AttemptOk(c, s.t, s.lost, s.attempts[w].(pc := pc))
  {
    assert AttemptOk(c, s.t, s.lost, s.attempts[w]);
    pc := AfterFindStep(s, w).attempts[w].pc;
  }

  lemma FindStepKeeps(c: Config, s: State, w: nat)
    requires Inv(c, s) && At(s, w) && s.attempts[w].pc.AtFindStep?
    ensures Inv(c, AfterFindStep(s, w))
  {
    var pc := FindStepAttempt(c, s, w);
    MoveKeeps(c, s, w, pc);
  }

  /** The two ledger transitions of the handler change one wrapper-driven row. */
  ghost predicate RowUpdate(c: Config, t: Tables, u: Tables, i: Id) {
    && u.events == t.events && u.runs == t.runs && u.memo == t.memo && u.nextId == t.nextId
    && i in u.deliveries && u.deliveries.Keys == t.deliveries.Keys
    && (forall j :: j in t.deliveries && j != i ==> u.deliveries[j] == t.deliveries[j])
    && Grows(t, u)
    && u.deliveries[i].wrapperRunId.Some? && RowOk(c, u, i)
  }

  lemma RowUpdateCommitted(c: Config, t: Tables, u: Tables, i: Id)
    requires Committed(c.reg, t) && RowUpdate(c, t, u, i)
    ensures Committed(c.reg, u)
  {
    LedgerTouchKeeps(c.reg, t, u);
  }

  lemma RowUpdateHandlers(c: Config, s: State, w: nat, u: Tables)
    requires Handlers(c, s) && ForeignKeys(s.t) && At(s, w) && !s.attempts[w].pc.AtRecord?
    requires RowUpdate(c, s.t, u, s.attempts[w].deliveryId)
    ensures Handlers(c, Leave(s, w).(t := u))
  {
    RowUpdateLedger(c, s.t, u, s.attempts[w].deliveryId);
    RowUpdateAttempts(c, s, u);
    NoLedgerMove(c, s.(t := u), Leave(s, w).(t := u), w);
  }

  lemma RowUpdateKeeps(c: Config, s: State, w: nat, u: Tables)
    requires Inv(c, s) && At(s, w) && !s.attempts[w].pc.AtRecord?
    requires RowUpdate(c, s.t, u, s.attempts[w].deliveryId)
    ensures Inv(c, Leave(s, w).(t := u))
  {
    RowUpdateCommitted(c, s.t, u, s.attempts[w].deliveryId);
    RowUpdateHandlers(c, s, w, u);
    DrainersFrame(c, s, Leave(s, w).(t := u));
  }

  lemma RowUpdateLedger(c: Config, t: Tables, u: Tables, i: Id)
    requires ForeignKeys(t) && LedgerOk(c, t) && Grows(t, u) && u.runs == t.runs && u.memo == t.memo
    requires u.deliveries.Keys == t.deliveries.Keys && i in u.deliveries
    requires forall j :: j in t.deliveries && j != i ==> u.deliveries[j] == t.deliveries[j]
    requires u.deliveries[i].wrapperRunId.Some? && RowOk(c, u, i)
    ensures LedgerOk(c, u)
  {
    forall j | j in u.deliveries && u.deliveries[j].wrapperRunId.Some? ensures RowOk(c, u, j) {
      if j != i { assert RowOk(c, t, j); }
      DecideStable(c.reg, t, u, j);
    }
  }

  lemma RowUpdateAttempts(c: Config, s: State, u: Tables)
    requires ForeignKeys(s.t) && AttemptsOk(c, s) && RunsAccounted(c, s) && OnePerWrapper(c, s)
    requires Grows(s.t, u) && u.runs == s.t.runs && u.memo == s.t.memo
    ensures AttemptsOk(c, s.(t := u)) && RunsAccounted(c, s.(t := u)) && OnePerWrapper(c, s.(t := u))
  {
    var s' := s.(t := u);
    forall x | x in s'.attempts ensures AttemptOk(c, u, s.lost, s'.attempts[x]) {
      assert AttemptOk(c, s.t, s.lost, s.attempts[x]);
      DecideStable(c.reg, s.t, u, s.attempts[x].deliveryId);
    }
    if c.exclusive {
      forall r | r in u.runs && u.runs[r].origin.Bridged? ensures Accounted(s', r) {
        assert Accounted(s, r);
        assert InFlight(s, u.runs[r].origin.parent, r) ==> InFlight(s', u.runs[r].origin.parent, r);
      }
    }
  }

  lemma SkipRow(c: Config, t: Tables, lost: set<Id>, a: Attempt)
    requires ForeignKeys(t) && Bijection(t) && LedgerOk(c, t) && AttemptOk(c, t, lost, a) && a.pc.AtSkip?
    ensures RowUpdate(c, t, MarkSkipped(t, a.deliveryId, a.pc.reason), a.deliveryId)
  {
    var u := MarkSkipped(t, a.deliveryId, a.pc.reason);
    assert Grows(t, u);
    DecideStable(c.reg, t, u, a.deliveryId);
    assert RowOk(c, t, a.deliveryId);
  }

  lemma SkipKeeps(c: Config, s: State, w: nat)
    requires Inv(c, s) && At(s, w) && s.attempts[w].pc.AtSkip?
    ensures Inv(c, AfterSkip(s, w))
  {
    var a := s.attempts[w];
    SkipRow(c, s.t, s.lost, a);
    RowUpdateKeeps(c, s, w, MarkSkipped(s.t, a.deliveryId, a.pc.reason));
  }

  lemma MarkRow(c: Config, t: Tables, lost: set<Id>, a: Attempt)
    requires ForeignKeys(t) && Bijection(t) && LedgerOk(c, t) && AttemptOk(c, t, lost, a) && a.pc.AtMark?
    ensures RowUpdate(c, t, MarkDelivered(t, a.deliveryId, a.pc.runId), a.deliveryId)
  {
    var u := MarkDelivered(t, a.deliveryId, a.pc.runId);
    assert RowOk(c, t, a.deliveryId);
    assert Grows(t, u);
    DecideStable(c.reg, t, u, a.deliveryId);
  }

  lemma MarkKeeps(c: Config, s: State, w: nat)
    requires Inv(c, s) && At(s, w) && s.attempts[w].pc.AtMark?
    ensures Inv(c, AfterMark(s, w))
  {
    var a := s.attempts[w];
    MarkRow(c, s.t, s.lost, a);
    RowUpdateKeeps(c, s, w, MarkDelivered(s.t, a.deliveryId, a.pc.runId));
  }

  lemma SpawnGrows(s: State, w: nat)
    requires FreshIds(s.t) && At(s, w) && s.attempts[w].pc.AtSpawn? && s.attempts[w].deliveryId in s.t.deliveries
    ensures Grows(s.t, AfterSpawn(s, w).t)
  {
  }

  lemma SpawnAttempt(c: Config, s: State, w: nat, x: nat)
    requires AttemptsOk(c, s) && LostRuns(c, s) && FreshIds(s.t) && ForeignKeys(s.t)
    requires At(s, w) && s.attempts[w].pc.AtSpawn? && s.attempts[w].deliveryId in s.t.deliveries && x in s.attempts
    ensures AttemptOk(c, AfterSpawn(s, w).t, s.lost, AfterSpawn(s, w).attempts[x])
  {
    assert AttemptOk(c, s.t, s.lost, s.attempts[x]);
    SpawnGrows(s, w);
    DecideStable(c.reg, s.t, AfterSpawn(s, w).t, s.attempts[x].deliveryId);
  }

  lemma SpawnAttempts(c: Config, s: State, w: nat)
    requires AttemptsOk(c, s) && LostRuns(c, s) && FreshIds(s.t) && ForeignKeys(s.t)
    requires At(s, w) && s.attempts[w].pc.AtSpawn? && s.attempts[w].deliveryId in s.t.deliveries
    ensures AttemptsOk(c, AfterSpawn(s, w))
  {
    forall x | x in s.attempts ensures AttemptOk(c, AfterSpawn(s, w).t, s.lost, AfterSpawn(s, w).attempts[x]) {
      SpawnAttempt(c, s, w, x);
    }
  }

  lemma SpawnLedger(c: Config, s: State, w: nat)
    requires LedgerOk(c, s.t) && FreshIds(s.t) && ForeignKeys(s.t)
    requires At(s, w) && s.attempts[w].pc.AtSpawn? && s.attempts[w].deliveryId in s.t.deliveries
    ensures LedgerOk(c, AfterSpawn(s, w).t)
  {
    var s' := AfterSpawn(s, w);
    SpawnGrows(s, w);
    forall i | i in s'.t.deliveries && s'.t.deliveries[i].wrapperRunId.Some? ensures RowOk(c, s'.t, i) {
      assert RowOk(c, s.t, i);
      DecideStable(c.reg, s.t, s'.t, i);
    }
  }

  lemma SpawnHandlers(c: Config, s: State, w: nat)
    requires Handlers(c, s) && FreshIds(s.t) && ForeignKeys(s.t)
    requires At(s, w) && s.attempts[w].pc.AtSpawn? && s.attempts[w].deliveryId in s.t.deliveries
    ensures Handlers(c, AfterSpawn(s, w))
  {
    SpawnAttempts(c, s, w);
    SpawnLedger(c, s, w);
    SpawnAccounted(c, s, w);
  }

  lemma SpawnAccounted(c: Config, s: State, w: nat)
    requires FreshIds(s.t) && RunsAccounted(c, s) && At(s, w) && s.attempts[w].pc.AtSpawn? &&
      s.attempts[w].deliveryId in s.t.deliveries
    ensures RunsAccounted(c, AfterSpawn(s, w))
  {
    var s' := AfterSpawn(s, w);
    if c.exclusive {
      forall r | r in s'.t.runs && s'.t.runs[r].origin.Bridged? ensures Accounted(s', r) {
        var p := s'.t.runs[r].origin.parent;
        if r == s.t.nextId {
          assert s'.attempts[w].wrapper == p && s'.attempts[w].pc == AtRecord(r);
        } else {
          assert Accounted(s, r);
          if InFlight(s, p, r) {
            var x :| x in s.attempts && s.attempts[x].wrapper == p && s.attempts[x].pc == AtRecord(r);
            assert x in s'.attempts && s'.attempts[x] == s.attempts[x];
          }
        }
      }
    }
  }

  lemma SpawnActionKeeps(c: Config, s: State, w: nat)
    requires Inv(c, s) && At(s, w) && s.attempts[w].pc.AtSpawn? && s.attempts[w].deliveryId in s.t.deliveries
    ensures Inv(c, AfterSpawn(s, w))
  {
    var a := s.attempts[w];
    assert AttemptOk(c, s.t, s.lost, a);
    SpawnKeeps(c.reg, s.t, BridgedRun(s.t, a.deliveryId, a.wrapper, a.pc.jobType));
    SpawnHandlers(c, s, w);
    DrainersFrame(c, s, AfterSpawn(s, w));
  }

  lemma RecordGrows(c: Config, s: State, w: nat)
    requires At(s, w) && s.attempts[w].pc.AtRecord?
    ensures Grows(s.t, AfterRecord(s, w).t)
  {
  }

  lemma RecordAttempt(c: Config, s: State, w: nat, x: nat)
    requires AttemptsOk(c, s) && OnePerWrapper(c, s) && ForeignKeys(s.t) && At(s, w) && s.attempts[w].pc.AtRecord?
    requires x in s.attempts
    ensures AttemptOk(c, AfterRecord(s, w).t, s.lost, AfterRecord(s, w).attempts[x])
  {
    assert AttemptOk(c, s.t, s.lost, s.attempts[w]);
    assert AttemptOk(c, s.t, s.lost, s.attempts[x]);
    RecordGrows(c, s, w);
    DecideStable(c.reg, s.t, AfterRecord(s, w).t, s.attempts[x].deliveryId);
  }

  lemma RecordAttempts(c: Config, s: State, w: nat)
    requires Handlers(c, s) && ForeignKeys(s.t) && At(s, w) && s.attempts[w].pc.AtRecord?
    ensures AttemptsOk(c, AfterRecord(s, w))
  {
    forall x | x in s.attempts ensures AttemptOk(c, AfterRecord(s, w).t, s.lost, AfterRecord(s, w).attempts[x]) {
      RecordAttempt(c, s, w, x);
    }
  }

  lemma RecordLedger(c: Config, s: State, w: nat)
    requires Handlers(c, s) && ForeignKeys(s.t) && At(s, w) && s.attempts[w].pc.AtRecord?
    ensures LedgerOk(c, AfterRecord(s, w).t)
  {
    var s' := AfterRecord(s, w);
    assert AttemptOk(c, s.t, s.lost, s.attempts[w]);
    RecordGrows(c, s, w);
    forall i | i in s'.t.deliveries && s'.t.deliveries[i].wrapperRunId.Some? ensures RowOk(c, s'.t, i) {
      assert RowOk(c, s.t, i);
      DecideStable(c.reg, s.t, s'.t, i);
    }
  }

  lemma RecordAccounted(c: Config, s: State, w: nat)
    requires Handlers(c, s) && At(s, w) && s.attempts[w].pc.AtRecord?
    ensures RunsAccounted(c, AfterRecord(s, w))
  {
    var s' := AfterRecord(s, w);
    assert AttemptOk(c, s.t, s.lost, s.attempts[w]);
    if c.exclusive {
      forall r | r in s'.t.runs && s'.t.runs[r].origin.Bridged? ensures Accounted(s', r) {
        assert Accounted(s, r);
        var p := s.t.runs[r].origin.parent;
        if InFlight(s, p, r) {
          var x :| x in s.attempts && s.attempts[x].wrapper == p && s.attempts[x].pc == AtRecord(r);
          if x != w { assert x in s'.attempts && s'.attempts[x] == s.attempts[x]; }
        }
      }
    }
  }

  lemma RecordParents(c: Config, s: State, w: nat)
    requires BridgedParents(s.t) && AttemptsOk(c, s) && At(s, w) && s.attempts[w].pc.AtRecord?
    ensures BridgedParents(AfterRecord(s, w).t)
  {
    assert AttemptOk(c, s.t, s.lost, s.attempts[w]);
  }

  lemma RecordCommitted(c: Config, s: State, w: nat)
    requires Committed(c.reg, s.t) && AttemptsOk(c, s) && At(s, w) && s.attempts[w].pc.AtRecord?
    ensures Committed(c.reg, AfterRecord(s, w).t)
  {
    RecordParents(c, s, w);
    assert LedgerTouch(s.t, AfterRecord(s, w).t);
    LedgerTouchKeeps(c.reg, s.t, AfterRecord(s, w).t);
  }

  lemma RecordHandlers(c: Config, s: State, w: nat)
    requires Handlers(c, s) && ForeignKeys(s.t) && At(s, w) && s.attempts[w].pc.AtRecord?
    ensures Handlers(c, AfterRecord(s, w))
  {
    RecordAttempts(c, s, w);
    RecordLedger(c, s, w);
    RecordAccounted(c, s, w);
  }

  lemma RecordDrainers(c: Config, s: State, w: nat)
    requires Drainers(c, s) && At(s, w) && s.attempts[w].pc.AtRecord?
    ensures Drainers(c, AfterRecord(s, w))
  {
    DrainersFrame(c, s, AfterRecord(s, w));
  }

  lemma RecordKeeps(c: Config, s: State, w: nat)
    requires Inv(c, s) && At(s, w) && s.attempts[w].pc.AtRecord?
    ensures Inv(c, AfterRecord(s, w))
  {
    RecordCommitted(c, s, w);
    RecordHandlers(c, s, w);
    RecordDrainers(c, s, w);
  }

  lemma FailLost(c: Config, s: State, w: nat)
    requires AttemptsOk(c, s) && LostRuns(c, s) && CanFail(c, s, w)
    ensures LostRuns(c, AfterFail(s, w))
  {
    assert AttemptOk(c, s.t, s.lost, s.attempts[w]);
  }

  lemma FailHandlers(c: Config, s: State, w: nat)
    requires Handlers(c, s) && CanFail(c, s, w)
    ensures Handlers(c, AfterFail(s, w))
  {
    FailLost(c, s, w);
    if s.attempts[w].pc.AtRecord? {
      FailTorn(c, s, w);
    } else {
      NoLedgerMove(c, s, AfterFail(s, w), w);
    }
  }

  lemma FailKeeps(c: Config, s: State, w: nat)
    requires Inv(c, s) && CanFail(c, s, w)
    ensures Inv(c, AfterFail(s, w))
  {
    FailHandlers(c, s, w);
    Quiet(c, s, AfterFail(s, w));
  }

  lemma FailTorn(c: Config, s: State, w: nat)
    requires Handlers(c, s) && CanFail(c, s, w) && s.attempts[w].pc.AtRecord?
    ensures AttemptsOk(c, AfterFail(s, w)) && RunsAccounted(c, AfterFail(s, w))
  {
    var s' := AfterFail(s, w);
    var a := s.attempts[w];
    forall x | x in s'.attempts ensures AttemptOk(c, s'.t, s'.lost, s'.attempts[x]) {
      assert AttemptOk(c, s.t, s.lost, s.attempts[x]) && AttemptOk(c, s.t, s.lost, a);
    }
    if c.exclusive {
      forall r | r in s'.t.runs && s'.t.runs[r].origin.Bridged? ensures Accounted(s', r) {
        assert Accounted(s, r);
        var p := s.t.runs[r].origin.parent;
        if InFlight(s, p, r) {
          var x :| x in s.attempts && s.attempts[x].wrapper == p && s.attempts[x].pc == AtRecord(r);
          if x != w { assert x in s'.attempts && s'.attempts[x] == s.attempts[x]; }
        }
      }
    }
  }
}
