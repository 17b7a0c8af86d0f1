/** The four tables the event-to-job bridge reads and writes, and the effect of each
    transaction on them, as functions from table contents to table contents. */
module BridgeTables {
  import opened Options

  /** UUIDs are only compared for equality here, so they are numbers; `Tables.nextId`
      plays the role of the generator that never returns an id twice. */
  type Id = nat

  // ---------------------------------------------------------------- rows

  /** The part of a `domain_events` row that never changes after the insert. */
  datatype Event = Event(
    id: Id,
    kind: string,
    audit: bool,
    direction: Option<string>,
    pool: Option<string>,
    payload: int,
    occurredAt: int)

  datatype EventRow = EventRow(event: Event, processedAt: Option<int>)
  {
    predicate Pending() { processedAt.None? }
  }

  /** Which call inserted a `job_run` row. */
  datatype Origin =
    | Wrapper(deliveryId: Id, pool: string)
    | Bridged(parent: Id)
    | Eager

  datatype JobRun = JobRun(jobType: string, triggerRef: Id, origin: Origin)

  datatype DeliveryStatus = Pending | Delivered | Skipped

  datatype Delivery = Delivery(
    eventId: Id,
    triggerId: string,
    wrapperRunId: Option<Id>,
    userRunId: Option<Id>,
    status: DeliveryStatus,
    skipReason: Option<string>)

  /** `memo` holds the completed `spawn_user_run` rows of `job_step`, by wrapper run. */
  datatype Tables = Tables(
    events: map<Id, EventRow>,
    runs: map<Id, JobRun>,
    deliveries: map<Id, Delivery>,
    memo: map<Id, Id>,
    nextId: Id)

  const EMPTY := Tables(map[], map[], map[], map[], 0)

  const BRIDGE_DELIVERY_JOB_TYPE := "@framework/bridge_delivery"

  // ---------------------------------------------------------------- registry

  /** An absent `when` is the predicate that is always true. */
  datatype Trigger = Trigger(triggerId: string, jobType: string, when: int -> bool)

  type Registry = map<string, seq<Trigger>>

  function TriggersOf(reg: Registry, kind: string): seq<Trigger> {
    if kind in reg then reg[kind] else []
  }

  function WrapperPool(direction: Option<string>): Option<string> {
    if direction == Some("inbound") then Some("events_inbound")
    else if direction == Some("change") then Some("events_change")
    else if direction == Some("outbound") then Some("events_outbound")
    else None
  }

  predicate Routable(e: Event) {
    !e.audit && WrapperPool(e.direction).Some?
  }

  /** First registry entry of the event's type with the given trigger id. */
  function FindRegistryEntry(triggers: seq<Trigger>, triggerId: string): (r: Option<Trigger>)
    ensures r.Some? ==> r.value in triggers && r.value.triggerId == triggerId
    ensures r.None? ==> forall k :: 0 <= k < |triggers| ==> triggers[k].triggerId != triggerId
  {
    if triggers == [] then None
    else if triggers[0].triggerId == triggerId then Some(triggers[0])
    else FindRegistryEntry(triggers[1..], triggerId)
  }

  // ---------------------------------------------------------------- constraints

  /** The domain_events CHECK: audit rows, and only those, have neither pool nor direction. */
  predicate TierRoutingCheck(e: Event) {
    e.audit <==> (e.pool.None? && e.direction.None?)
  }

  /** UNIQUE (event_id, trigger_id) already holds a row for this pair. */
  predicate Taken(t: Tables, eventId: Id, triggerId: string) {
    exists i :: i in t.deliveries && t.deliveries[i].eventId == eventId && t.deliveries[i].triggerId == triggerId
  }

  ghost predicate ForeignKeys(t: Tables) {
    && (forall i :: i in t.deliveries ==>
          && t.deliveries[i].eventId in t.events
          && (t.deliveries[i].wrapperRunId.Some? ==> t.deliveries[i].wrapperRunId.value in t.runs))
    && (forall i {:trigger t.deliveries[i].userRunId} :: i in t.deliveries && t.deliveries[i].userRunId.Some? ==>
          t.deliveries[i].userRunId.value in t.runs)
  }

  ghost predicate FreshIds(t: Tables) {
    && (forall i :: i in t.runs ==> i < t.nextId)
    && (forall i :: i in t.deliveries ==> i < t.nextId)
  }

  // ---------------------------------------------------------------- publishing

  /** Outbox insert; a primary-key or CHECK violation makes the statement throw. */
  predicate CanInsertEvent(t: Tables, e: Event) {
    e.id !in t.events && TierRoutingCheck(e)
  }

  function InsertEvent(t: Tables, e: Event): Tables {
    t.(events := t.events[e.id := EventRow(e, None)])
  }

  /** One run added under a fresh id: what IJobOrchestrator.start does to job_run. */
  function AddRun(t: Tables, run: JobRun): Tables {
    t.(runs := t.runs[t.nextId := run], nextId := t.nextId + 1)
  }

  function EagerDelivery(eventId: Id, triggerId: string, runId: Id): Delivery {
    Delivery(eventId, triggerId, None, Some(runId), Delivered, None)
  }

  /** insertDelivery: ON CONFLICT (event_id, trigger_id) DO NOTHING. */
  function InsertDelivery(t: Tables, d: Delivery): Tables {
    if Taken(t, d.eventId, d.triggerId) then t.(nextId := t.nextId + 1)
    else t.(deliveries := t.deliveries[t.nextId := d], nextId := t.nextId + 1)
  }

  function Matching(triggers: seq<Trigger>, jobType: string): (r: seq<Trigger>)
    ensures forall x :: x in r <==> x in triggers && x.jobType == jobType
  {
    if triggers == [] then []
    else
      var rest := Matching(triggers[..|triggers| - 1], jobType);
      if triggers[|triggers| - 1].jobType == jobType then rest + [triggers[|triggers| - 1]] else rest
  }

  /** The Case B pre-writes of publishAndStart, in registry order. */
  function PreWrite(t: Tables, eventId: Id, runId: Id, triggers: seq<Trigger>): Tables {
    if triggers == [] then t
    else
      var before := PreWrite(t, eventId, runId, triggers[..|triggers| - 1]);
      InsertDelivery(before, EagerDelivery(eventId, triggers[|triggers| - 1].triggerId, runId))
  }

  /** The committed effect of publishAndStart: event, eager run, pre-written ledger rows. */
  function EagerTx(reg: Registry, t: Tables, e: Event, jobType: string): Tables {
    var withEvent := InsertEvent(t, e);
    var withRun := AddRun(withEvent, JobRun(jobType, e.id, Eager));
    PreWrite(withRun, e.id, t.nextId, Matching(TriggersOf(reg, e.kind), jobType))
  }

  // ---------------------------------------------------------------- draining

  function WrapperRun(e: Event, pool: string, deliveryId: Id): JobRun {
    JobRun(BRIDGE_DELIVERY_JOB_TYPE, e.id, Wrapper(deliveryId, pool))
  }

  function PendingDelivery(e: Event, triggerId: string, wrapperRunId: Id): Delivery {
    Delivery(e.id, triggerId, Some(wrapperRunId), None, Pending, None)
  }

  /** Net effect of one turn of the fan-out loop. */
  function FanOutOne(t: Tables, e: Event, pool: string, triggerId: string): Tables {
    if Taken(t, e.id, triggerId) then t.(nextId := t.nextId + 2)
    else t.(
      runs := t.runs[t.nextId + 1 := WrapperRun(e, pool, t.nextId)],
      deliveries := t.deliveries[t.nextId := PendingDelivery(e, triggerId, t.nextId + 1)],
      nextId := t.nextId + 2)
  }

  function FanOut(t: Tables, e: Event, pool: string, triggers: seq<Trigger>): Tables {
    if triggers == [] then t
    else FanOutOne(FanOut(t, e, pool, triggers[..|triggers| - 1]), e, pool, triggers[|triggers| - 1].triggerId)
  }

  /** Whole effect of the drain hook on one event. */
  function HookEffect(reg: Registry, t: Tables, e: Event): Tables {
    if Routable(e) then FanOut(t, e, WrapperPool(e.direction).value, TriggersOf(reg, e.kind)) else t
  }

  /** UPDATE … SET processed WHERE id = ? AND status = 'pending'. */
  function Stamp(t: Tables, id: Id, now: int): Tables {
    if id in t.events && t.events[id].Pending()
    then t.(events := t.events[id := t.events[id].(processedAt := Some(now))])
    else t
  }

  /** The committed effect of the per-event drain transaction. */
  function DrainTx(reg: Registry, t: Tables, e: Event, now: int): Tables {
    Stamp(HookEffect(reg, t, e), e.id, now)
  }

  // ---------------------------------------------------------------- handling

  /** What the handler decides for a delivery row once it has read the row, the event and
      the registry. */
  datatype Decision = Missing | SkipFor(reason: string) | SpawnJob(jobType: string)

  function Decide(reg: Registry, t: Tables, deliveryId: Id): Decision {
    if deliveryId !in t.deliveries then Missing
    else
      var d := t.deliveries[deliveryId];
      if d.eventId !in t.events then SkipFor("event_row_missing")
      else
        var e := t.events[d.eventId].event;
        var entry := FindRegistryEntry(TriggersOf(reg, e.kind), d.triggerId);
        if entry.None? then SkipFor("trigger_unregistered")
        else if !entry.value.when(e.payload) then SkipFor("predicate_false")
        else SpawnJob(entry.value.jobType)
  }

  function MarkDelivered(t: Tables, id: Id, runId: Id): Tables {
    if id in t.deliveries
    then t.(deliveries := t.deliveries[id := t.deliveries[id].(status := Delivered, userRunId := Some(runId))])
    else t
  }

  function MarkSkipped(t: Tables, id: Id, reason: string): Tables {
    if id in t.deliveries
    then t.(deliveries := t.deliveries[id := t.deliveries[id].(status := Skipped, skipReason := Some(reason))])
    else t
  }

  function RecordStep(t: Tables, wrapper: Id, runId: Id): Tables {
    t.(memo := t.memo[wrapper := runId])
  }

  function BridgedRun(t: Tables, deliveryId: Id, wrapper: Id, jobType: string): JobRun
    requires deliveryId in t.deliveries
  {
    JobRun(jobType, t.deliveries[deliveryId].eventId, Bridged(wrapper))
  }
}
