# Verified model of the events, bridge, scheduling, cache, analyzer and integration cores

The modules model the stateful core of a TypeScript code-generation runtime and of its analyzer,
and prove what that code promises its callers. Everything is stated for all inputs, all runs or all
reachable states. `dafny verify dfyconfig.toml` checks the whole project.

## What is modelled

**The event-to-job bridge** (`BridgeTables`, `BridgeInvariant`, `OutboxClaim`, `BridgeProtocol`,
`BridgeRuns`, `BridgeTheorems`, `BridgeContents`, `BridgeFailures`, and the service objects in
`BridgeDatabase`, `OutboxDrainHook`, `DeliveryHandler`, `EventFlow`, `OutboxDrain`, with
`OutboxProtocol`). Events, deliveries, job runs and
recorded steps are tables. `BridgeTables` gives each transaction's effect as a function on the
tables; the service objects are the imperative code, statement by statement against a database that
checks its constraints, proved to have exactly those effects, and `OutboxProtocol` and
`DeliveryHandler` show that a drain cycle and a handler attempt are stretches of a protocol run. `BridgeProtocol` lets publishers, any
number of drainers and any number of handler attempts interleave, with rollbacks, crashes and
retries at every committed statement; `BridgeRuns` has its invariant in every reachable state.
Claimed rows are held after their locks are released, so two drainers can hold the same row; each
drainer reads its own clock. `BridgeTheorems` draws the conclusions over every run, and
`BridgeContents` says what the rows and runs of every reachable state hold: which job a wrapper
started, where it was routed, which triggers have a row and why one was skipped. The two
assumptions behind "at most one user run per trigger" are parameters of a run: attempts of one
wrapper do not overlap, and no attempt dies between starting the user run and recording the step.
`BridgeFailures` builds the runs that fail without them, in every configuration that lets a trigger
start anything, and so proves for each configuration exactly when the guarantee holds; and the same
for stamps that are never early, which rests on clocks that are not set back.

**The scheduler** (`SlotMath`, `SlotKeys`, `Backfill`, `Cadence`, `ScheduleFleet`, `SchedulePasses`,
`Scheduling`). Slot arithmetic and keys, the slots a catch-up attempts, when ticking leaves no gap,
any number of instances racing into one store, and the scheduler object over the in-memory bus,
whose subscribers may throw: what a start followed by ticks leaves in the log, with and without
throws.

**Listing, waking and caching** (`TextOrder`, `KeysetPaging`, `InMemoryBus`, `WakeDebounce`,
`MemoryCache`, `CacheStampede`, `CacheService`). Each small stateful algorithm is compared with a
simple specification while other steps interleave: a sorted listing, "every wake is followed by a
cycle", a plain map with expiry times, and one computation per key.

**Graph algorithms** (`Digraph`, `GraphCycles`, `DomainGraph`, `TransitivePaths`). The depth-first
cycle search with its recursion stack and deduplication, the graph it is run on, and the breadth-first
enumeration of transitive relationships.

**Integration writes** (`IntegrationUpsert`, `IntegratedRepository`, `Delimited`, `CompositeIds`,
`JunctionIntegration`, `JunctionRepository`). The no-clobber upsert and its runs, deletes and
batches; the junction's composite id as a printed and parsed pair; lookups and deletes that depend
on it.

**The delivery ledger's backends** (`DeliveryLedger`, `BridgeDeliveryRepos`). A map keyed by text and
a table with a unique pair hold the same records.

`Options`, `FiniteSets` and `Tenants` hold what several of these share.

Outside inputs are parameters: clock readings, random ids, the rows others have locked, whether a
transaction commits, where an attempt dies, which subscriber throws, and when a timer fires.
UUIDs are numbers in the bridge tables and strings elsewhere. Time is in whole milliseconds and cache
TTLs in whole seconds. Strings compare by character.

## Where the code and its documentation differ, or a plain claim fails

- The handler's documentation says that no failure between the start and the ledger update can start the
  job twice. In the worker the start commits first and the step is recorded after it
  (`runtime/subsystems/jobs/job-worker.ts:787-798`), so an attempt that dies in between starts the job
  again: `BridgeFailures.TornAttemptStartsTwice`, `DeliveryHandler.RetryConvergesExactly`.
- A delivered row's user run can change: of two overlapping attempts of one wrapper each marks the row with
  the run it started. `BridgeFailures.OverlappingAttemptsSwapRuns`, `BridgeFailures.UserRunsKeptExactly`.
- The readiness gate says no event is stamped before its time. Claim and stamp read the clock separately, so a
  clock set back in between stamps early: `BridgeFailures.ClockSetBackStampsEarly`,
  `BridgeFailures.NeverEarlyExactly`.
- The drain's counters add up only for routable events; an unknown direction counts triggers it does not
  serve: `OutboxDrainHook.BridgeOutboxDrainHook.ProcessEvent`.
- A wake-driven drain cycle that throws drops a pending recheck: `WakeDebounce.RecheckServedExactly`.
- A schedule below the one-second floor can leave slots out: `Cadence.DefaultGaplessExactly`. With the
  default interval so can the smallest cadence, if the first tick comes any later than one interval after
  the boot pass, which attempts no next slot: `Cadence.DriftTolerance`.
- A catch-up from a slot off the grid can miss the current slot (`Backfill.HitsCurrentExactly`), and one
  with no slot budget attempts nothing (`SchedulePasses.BootReachesCurrent`).
- Clearing the in-memory bus keeps its slot set, so materialised slots stay taken:
  `InMemoryBus.MemoryEventBus.Clear`.
- A cache TTL beyond 2^31 - 1 ms is cut to one millisecond by the runtime's timer, which then evicts a
  live value: `MemoryCache.AgreesExactly`.
- The cycle search says deduplication merges one cycle found from different starting points. Its key
  rotates the closed list, repeated node included, so it merges equal lists only; rotations cannot arise
  because every reported cycle starts at its earliest-discovered node.
- Repeating an upsert is not idempotent when the write has no external id, which adds another row, or when
  the first one created a row that one of its own columns names as parent:
  `IntegrationUpsert.RepeatExactly`. An upsert onto a soft-deleted row does not revive it:
  `IntegrationUpsert.DeletedThenWritten`.
- That vendor ids contain single colons only is not enough for composite ids: a part that ends in a colon
  breaks them too. `CompositeIds.ParseAfterBuildExactly` gives the exact condition.

## Model

| member | source | states |
|---|---|---|
| BridgeTheorems.StartsAreConserved | runtime/subsystems/bridge/bridge-delivery-handler.ts:177-193 | with attempts of one wrapper exclusive, every run of replays, concurrent drainers, retries and eager publishes starts at most one user run per (event, trigger), not counting those whose attempt died unrecorded |
| BridgeTheorems.AtMostOneRun | runtime/subsystems/bridge/bridge-delivery-handler.ts:177-193 | with exclusive attempts and a step recorded whenever its start happened, at most one user run is ever started on behalf of an (event, trigger) |
| BridgeTheorems.NoTriggerStartsOnce | runtime/subsystems/bridge/bridge-delivery-handler.ts:161-171 | while no trigger of the registry accepts any payload, at most one run is ever started on behalf of an (event, trigger), by an eager publish, whatever overlaps or dies |
| BridgeFailures.TornAttemptStartsTwice | runtime/subsystems/jobs/job-worker.ts:787-798 | in every configuration with torn attempts and a trigger that accepts some payload: death between the start and its record makes the retry start the job a second time |
| BridgeFailures.OverlappingAttemptsStartTwice | runtime/subsystems/jobs/job-worker.ts:770-773 | in every configuration with overlapping attempts and such a trigger: two attempts both find no completed step and both start the job |
| BridgeFailures.AtMostOneRunExactly | runtime/subsystems/bridge/bridge-delivery-handler.ts:177-193 | for each configuration the at-most-one guarantee holds over all its runs if and only if attempts are exclusive and never torn, or no trigger can start anything |
| BridgeFailures.OverlappingAttemptsSwapRuns | runtime/subsystems/bridge/bridge-delivery-handler.ts:178-193 | in every configuration with overlapping attempts and such a trigger, a run in which a delivered row changes its user run |
| BridgeFailures.UserRunsKeptExactly | runtime/subsystems/bridge/bridge-delivery-handler.ts:177-193 | for each configuration a row keeps its user run over all continuations of all runs if and only if attempts are exclusive or no trigger can start anything |
| BridgeTheorems.WrappersMatchDeliveries | runtime/subsystems/bridge/bridge-outbox-drain-hook.ts:172-239 | in every reachable state wrapper runs and wrapper-driven deliveries point at each other one to one, and no two wrappers serve one (event, trigger) |
| BridgeTheorems.FanOutAllOrNothing | runtime/subsystems/events/event-bus.drizzle-backend.ts:632-656 | a processed routable event has a ledger row for exactly the registered triggers; any other event has exactly the rows its eager publish wrote |
| BridgeTheorems.PendingMeansUntouched | runtime/subsystems/events/event-bus.drizzle-backend.ts:632-656 | a pending event without an eager publish has no ledger row |
| BridgeTheorems.LedgerIsMonotone | runtime/subsystems/bridge/bridge-delivery-handler.ts:116-194 | over any continuation, in every configuration, a row leaves pending once, for delivered or skipped, and then keeps its status, and eagerly delivered rows are never touched; it also keeps its user run where attempts are exclusive or no trigger can start anything |
| BridgeTheorems.DeliveredRowsNameTheirRun | runtime/subsystems/bridge/bridge-delivery-handler.ts:178-193 | a delivered row names a run started for exactly its event and trigger |
| BridgeTheorems.NeverEarly | runtime/subsystems/events/event-bus.drizzle-backend.ts:587-618 | nobody ever holds more than fifty rows; and while no clock is set back no event is stamped processed before its occurredAt and nobody holds a row that is not due |
| BridgeFailures.ClockSetBackStampsEarly | runtime/subsystems/events/event-bus.drizzle-backend.ts:598-645 | in every configuration whose clocks can be set back, a run that holds and stamps a row before its occurredAt |
| BridgeFailures.NeverEarlyExactly | runtime/subsystems/events/event-bus.drizzle-backend.ts:587-645 | for each configuration stamps are never early, and held rows always due, over all its runs if and only if no clock is set back |
| BridgeTheorems.StampedOnce | runtime/subsystems/events/event-bus.drizzle-backend.ts:637-645 | once processed, an event's row never changes again, replays included |
| BridgeContents.BridgedRunsAreTriggered | runtime/subsystems/bridge/bridge-delivery-handler.ts:161-193 | in every reachable state a run that a wrapper started has the job type of a trigger with its row's trigger id, of its event's type, that accepts the payload, and refers to that event |
| BridgeContents.DeliveredRowsRanTheirTrigger | runtime/subsystems/bridge/bridge-delivery-handler.ts:177-193 | in every reachable state the user run of a delivered wrapper-driven row is such a run, started by that row's own wrapper |
| BridgeContents.WrappersAreRouted | runtime/subsystems/bridge/bridge-outbox-drain-hook.ts:54-58 | in every reachable state each wrapper run is a bridge delivery for an event that is not audit, in the pool "events_" followed by that event's direction, which is inbound, change or outbound |
| BridgeContents.FanOutSpelledOut | runtime/subsystems/bridge/bridge-outbox-drain-hook.ts:81-266 | in every reachable state a processed event that is not audit and runs inbound, change or outbound has ledger rows for exactly the trigger ids of its type, any other event for exactly those whose job its eager publish started |
| BridgeContents.RowsSayWhy | runtime/subsystems/bridge/bridge-delivery-handler.ts:116-194 | in every reachable state only delivered rows name a user run, only skipped ones a reason, and the reason is true: the trigger is not registered, or the first one with its id refuses the payload |
| BridgeContents.DrainersKeepToTheirPools | runtime/subsystems/events/event-bus.drizzle-backend.ts:599-602 | in every reachable state a drainer holds rows of its own pools only |
| BridgeRuns.AlwaysInv | runtime/subsystems/events/event-bus.drizzle-backend.ts:604-656 | the protocol invariant (constraints, bijection, all-or-nothing, ledger and attempt consistency) holds in every reachable state |
| BridgeRuns.StepKeeps | runtime/subsystems/bridge/bridge-delivery-handler.ts:116-194 | every enabled action of any publisher, drainer or worker keeps the invariant |
| BridgeProtocol.DecideStable | runtime/subsystems/bridge/bridge-delivery-handler.ts:161-171 | with a fixed registry and pure predicates the handler's decision for a row never changes as the tables grow |
| BridgeInvariant.InsertEventKeeps | runtime/subsystems/events/event-bus.drizzle-backend.ts:276-285 | publishing keeps every committed-state invariant |
| BridgeInvariant.EagerTxKeeps | runtime/subsystems/bridge/event-flow.service.ts:123-160 | the three-write eager transaction keeps every committed-state invariant |
| BridgeInvariant.DrainTxKeeps | runtime/subsystems/events/event-bus.drizzle-backend.ts:633-646 | the per-event drain transaction keeps every committed-state invariant, also on a replay |
| BridgeTables.FindRegistryEntry | runtime/subsystems/bridge/bridge-delivery-handler.ts:202-212 | finds an entry with the trigger id, or there is none |
| BridgeTables.Matching | runtime/subsystems/bridge/event-flow.service.ts:168-174 | exactly the event's triggers that name the job type |
| BridgeDatabase.Database.InsertEvent | runtime/subsystems/events/domain-events.schema.ts:123-126 | inserts exactly when the id is new and the tier routing check holds |
| BridgeDatabase.Database.InsertDelivery | runtime/subsystems/bridge/bridge-delivery.schema.ts:118-121 | a taken (event, trigger) is a silent no-op, a missing referenced row an error, otherwise the row is added |
| BridgeDatabase.Database.DeleteRun | runtime/subsystems/bridge/bridge-delivery.schema.ts:91-96 | succeeds exactly when no delivery references the run |
| OutboxDrainHook.BridgeOutboxDrainHook.DeliverTrigger | runtime/subsystems/bridge/bridge-outbox-drain-hook.ts:172-258 | the speculative wrapper insert and its removal on conflict leave a wrapper and a delivery pointing at each other, or nothing; no delivery ever points at a missing run |
| OutboxDrainHook.BridgeOutboxDrainHook.FanOutTriggers | runtime/subsystems/bridge/bridge-outbox-drain-hook.ts:157-258 | delivered plus dedupSkips is the trigger count, and delivered is the number of runs and of rows added |
| OutboxDrainHook.BridgeOutboxDrainHook.ProcessEvent | runtime/subsystems/bridge/bridge-outbox-drain-hook.ts:81-266 | whole effect of the hook; its counters and warn-once flags, spelled out for audit events, events without triggers, events of no direction with a pool, and events inbound, change or outbound |
| DeliveryHandler.BridgeDeliveryHandler.SpawnStep | runtime/subsystems/jobs/job-worker.ts:764-813 | a recorded step is returned without running the body; otherwise one run is started and then recorded, each write possibly the last |
| DeliveryHandler.BridgeDeliveryHandler.Run | runtime/subsystems/bridge/bridge-delivery-handler.ts:116-194 | one attempt has exactly its specified effect in every branch and at every point of death; a run it starts is the job of a trigger of the row's event and trigger id that accepts the payload, a recorded run is taken as it is, and a skip changes the row's status and reason only |
| DeliveryHandler.RetryConvergesExactly | runtime/subsystems/bridge/bridge-delivery-handler.ts:177-193 | a retry after a failed attempt ends where one clean attempt ends, if and only if the failure did not fall between start and record |
| DeliveryHandler.AttemptIsProtocolRun | runtime/subsystems/bridge/bridge-delivery-handler.ts:116-194 | the handler's code is a stretch of a protocol run, so the theorems over runs apply to it |
| EventFlow.EventFlowService.PublishAndStart | runtime/subsystems/bridge/event-flow.service.ts:99-161 | event, run and pre-writes commit together or not at all, and fail exactly when the event id is taken, the tier check fails or the start fails |
| EventFlow.DrainSkipsEagerTriggers | runtime/subsystems/bridge/event-flow.service.ts:143-157 | after an eager publish the drain creates no wrapper for any trigger that names the started job |
| EventFlow.EagerPublishSpelledOut | runtime/subsystems/bridge/event-flow.service.ts:123-160 | a committed publishAndStart adds the pending event, one run of the named job that refers to it, and a delivered row pointing at that run for exactly the trigger ids of the event's type that name the job, and changes no other row |
| OutboxDrain.DrizzleEventBus.EventTransaction | runtime/subsystems/events/event-bus.drizzle-backend.ts:632-656 | fan-out and stamp commit together or leave the tables as they were |
| BridgeDatabase.Database.SelectReady | runtime/subsystems/events/event-bus.drizzle-backend.ts:599-618 | the claim query: pending, due, in a pool of this drainer and not locked, the fifty oldest in order, each once; whatever is locked there is an answer, empty only if no unlocked row is ready |
| OutboxClaim.ClaimSpelledOut | runtime/subsystems/events/event-bus.drizzle-backend.ts:599-618 | what a legal claim is, both ways: at most fifty pending, due, unlocked rows of the drainer's pools, each once, by occurredAt, and nothing left that is older unless fifty were taken |
| OutboxDrain.DrizzleEventBus.ProcessBatch | runtime/subsystems/events/event-bus.drizzle-backend.ts:584-671 | claims a legal batch under any locks; the tables afterwards are the composition of its transactions, each claimed row is stamped with its own clock reading exactly if its transaction committed, no other event row changes, and exactly the committed events are dispatched, in order |
| OutboxDrain.EachRowStamped | runtime/subsystems/events/event-bus.drizzle-backend.ts:620-656 | after the first n turns of a claim exactly the committed ones among them have their row stamped, with their own clock reading, and no row's content has changed |
| OutboxDrain.DispatchedExactly | runtime/subsystems/events/event-bus.drizzle-backend.ts:620-671 | the subscribers see exactly the events whose transaction committed, as often and in the order they were claimed |
| OutboxProtocol.BatchIsProtocolRun | runtime/subsystems/events/event-bus.drizzle-backend.ts:584-671 | a drain cycle is a stretch of a protocol run, a claim and then for each row a clock reading and a transaction, so the theorems over runs apply to it |
| OutboxProtocol.PublishIsProtocolStep | runtime/subsystems/bridge/event-flow.service.ts:99-161 | a publish is one protocol step, which adds the event as pending and nothing else; so is an eager publish |
| OutboxDrain.BatchStamps | runtime/subsystems/events/event-bus.drizzle-backend.ts:620-656 | after a batch a row is pending exactly if it was and none of its transactions committed |
| OutboxDrain.ClaimTakesOldest | runtime/subsystems/events/event-bus.drizzle-backend.ts:610-618 | a claim takes min(50, ready) rows, none younger than a ready row it leaves |
| OutboxDrain.CycleShrinksBacklog | runtime/subsystems/events/event-bus.drizzle-backend.ts:604-656 | a failure-free cycle removes exactly its claimed rows from the backlog |
| OutboxDrain.DrainsInOrder | runtime/subsystems/events/event-bus.drizzle-backend.ts:584-656 | k failure-free cycles process min(n, 50k) of n ready rows, each once, in occurredAt order; the backlog is empty exactly from cycle ceil(n/50) on |
| WakeDebounce.WakeListener.OnWake | runtime/subsystems/events/event-bus.drizzle-backend.ts:247-256 | a wake is ignored, flagged or starts a loop, as the state machine says |
| WakeDebounce.WakeListener.AfterCycle | runtime/subsystems/events/event-bus.drizzle-backend.ts:258-270 | the end of a cycle, thrown or not, continues or leaves the loop as the state machine says |
| WakeDebounce.LoopsNeverOverlap | runtime/subsystems/events/event-bus.drizzle-backend.ts:247-270 | under every sequence of inputs at most one wake-driven loop is in flight, and the flag says so |
| WakeDebounce.NotificationIsServed | runtime/subsystems/events/event-bus.drizzle-backend.ts:247-270 | while polling and without a throw, an owned notification is followed by a cycle begun after it, or one is running with the recheck pending, which becomes a cycle as soon as that one ends |
| WakeDebounce.BurstCausesOneCycle | runtime/subsystems/events/event-bus.drizzle-backend.ts:251-264 | a burst during one cycle causes exactly one further cycle, or none if nothing in it was owned |
| WakeDebounce.RecheckServedExactly | runtime/subsystems/events/event-bus.drizzle-backend.ts:264-269 | a pending recheck is served if and only if the cycle did not throw and polling is on; otherwise nothing but another owned wake begins a cycle |
| SlotMath.SlotContains | runtime/subsystems/events/event-scheduler.ts:96-105 | the aligned slot is the one multiple of everyMs whose slot contains the instant |
| SlotMath.UnalignedSlotContains | runtime/subsystems/events/event-scheduler.ts:96-105 | an unaligned slot is the anchor before it, and from there the one point a whole number of cadences after it whose slot contains the instant |
| SlotMath.AnchorsAgreeExactly | runtime/subsystems/events/event-scheduler.ts:103-104 | unaligned instances compute the same slots if and only if their anchors are on one grid |
| SlotKeys.ParsePrintInt | runtime/subsystems/events/event-scheduler.ts:126 | the printed slot start reads back |
| SlotKeys.SlotKeyInjective | runtime/subsystems/events/event-scheduler.ts:125-127 | equal slot keys mean equal type and slot start, whatever the type's name |
| Backfill.BackfillExactly | runtime/subsystems/events/event-scheduler.ts:333-350 | with the last slot on the grid the pass attempts, ascending and at most maxCatchUpSlots, exactly the missed slots up to the current one except the oldest beyond the cap |
| Backfill.HitsCurrentExactly | runtime/subsystems/events/event-scheduler.ts:336-349 | from any last slot, the exact condition under which the current slot is attempted |
| Cadence.SmallestEvery | runtime/subsystems/events/event-scheduler.ts:228-230 | the least cadence among the schedules |
| Cadence.TickIntervalMeans | runtime/subsystems/events/event-scheduler.ts:228-231 | an override is the interval; else it is a second if there are no schedules or one is due that often, and else the least cadence |
| Cadence.DefaultIntervalFits | runtime/subsystems/events/event-scheduler.ts:228-231 | the default tick interval is at most a schedule's cadence exactly for schedules at or above the floor |
| Cadence.GaplessExactly | runtime/subsystems/events/event-scheduler.ts:276-308 | no run whose first tick comes within `first` of the boot pass and whose later ticks come within `later` of each other leaves a slot out, if and only if first is at most one cadence and later at most two |
| Cadence.DefaultGaplessExactly | runtime/subsystems/events/event-scheduler.ts:228-240 | with the default interval and ticks no further apart, exactly the schedules at or above the floor are gapless |
| Cadence.DriftTolerance | runtime/subsystems/events/event-scheduler.ts:228-308 | for a schedule whose cadence is the default interval: ticks may come late by up to a cadence, the first tick after the boot pass not at all |
| ScheduleFleet.AlwaysOk | runtime/subsystems/events/domain-events.schema.ts:110-114 | over any interleaving of passes of any instances the store's invariant holds |
| ScheduleFleet.OneEventPerSlot | runtime/subsystems/events/event-bus.drizzle-backend.ts:375-438 | at most one event per (type, slot), each on the grid, and exactly one attempt per present slot reported created |
| ScheduleFleet.AttemptedSlotsArePresent | runtime/subsystems/events/event-scheduler.ts:310-329 | every attempted slot has its event, whoever won |
| ScheduleFleet.AttemptsArePlanned | runtime/subsystems/events/event-scheduler.ts:276-350 | over any interleaving nothing is attempted but grid slots some pass was due: a tick's own slot and the next, a boot's own slot, or within the cap's reach of it for a schedule that catches up |
| ScheduleFleet.TickPassCompletes | runtime/subsystems/events/event-scheduler.ts:295-308 | a tick pass in which no call throws has, when it is done, the slot that holds its instant and the next one of every schedule in the store, whatever other passes do meanwhile |
| ScheduleFleet.BootPassCompletes | runtime/subsystems/events/event-scheduler.ts:276-291 | a boot pass in which no call throws has, when it is done, the slot that holds its instant of every schedule that does not catch up or has a cap of at least one |
| ScheduleFleet.TickPassPlans | runtime/subsystems/events/event-scheduler.ts:295-308 | a tick pass is to attempt exactly, for each schedule, the grid slot that holds the instant and the one after it |
| ScheduleFleet.BootPassPlans | runtime/subsystems/events/event-scheduler.ts:276-291 | a boot pass is to attempt exactly the grid slot that holds the instant for each schedule that does not catch up, and a catch-up for each that does |
| ScheduleFleet.CatchUpPlans | runtime/subsystems/events/event-scheduler.ts:333-350 | a catch-up is to attempt exactly the grid slots since the newest recorded one that the cap reaches, and just the current one if nothing older is recorded |
| ScheduleFleet.DropKindLeaves | runtime/subsystems/events/event-scheduler.ts:276-308 | a throw leaves of a pass exactly what follows the current schedule's share |
| Backfill.FirstSlotOnGrid | runtime/subsystems/events/event-scheduler.ts:336-346 | a catch-up starts on the grid, one cadence after the newest slot it takes as done, never past the current slot and never further back than the cap allows |
| Scheduling.EventScheduler.MaterializeOne | runtime/subsystems/events/event-scheduler.ts:310-329 | afterwards exactly this slot is there besides what was, as a tick with the schedule's routing, even if a subscriber throws; a present slot changes nothing and cannot throw |
| Scheduling.EventScheduler.MaterializeUpTo | runtime/subsystems/events/event-scheduler.ts:347-349 | the loop adds exactly the slots of the progression up to the first call that throws, all of them if none does |
| Scheduling.EventScheduler.BackfillMissed | runtime/subsystems/events/event-scheduler.ts:333-350 | a catch-up adds exactly the backfill slots since the newest recorded tick, up to the first call that throws |
| Scheduling.EventScheduler.MaterializeBoot | runtime/subsystems/events/event-scheduler.ts:276-291 | after the boot pass a schedule has what it had and the oldest slot it was due, and all it was due if its subscribers are reliable, and no other; due are the grid slot that holds the instant and, for a schedule that catches up, those newer than every recorded one within the cap |
| Scheduling.EventScheduler.MaterializeTick | runtime/subsystems/events/event-scheduler.ts:295-308 | after the tick pass a schedule has what it had and the grid slot that holds the instant, and the next one too if its subscribers are reliable, and no other; a throw cuts short only that schedule's share |
| Scheduling.EventScheduler.Start | runtime/subsystems/events/event-scheduler.ts:252-265 | boots, and keeps one interval timer however often it is called |
| SchedulePasses.BootReachesCurrent | runtime/subsystems/events/event-scheduler.ts:276-291 | with recorded slots on the grid a boot pass is to attempt the current slot if and only if the schedule does not catch up or its catch-up cap is at least one |
| SchedulePasses.NoSlotMissing | runtime/subsystems/events/event-scheduler.ts:276-308 | after passes that each did their share, with whatever other instances add in between, every slot from the boot slot to the one after the last pass is in the log |
| SchedulePasses.NoCurrentSlotMissing | runtime/subsystems/events/event-scheduler.ts:276-308 | whatever throws, passes at most a cadence apart leave every slot from the first current one (the boot slot, unless the schedule catches up) to the last in the log |
| Scheduling.EventScheduler.StartAndTick | runtime/subsystems/events/event-scheduler.ts:252-308 | a start and the timer firing at any later times: within the gapless bounds the log holds, for each schedule with reliable subscribers, every slot from the boot slot to the one after the last pass; with passes within a cadence, whatever subscribers do, every slot from the first current one to the last |
| KeysetPaging.ClampEventLimit | runtime/subsystems/events/event-keyset-cursor.ts:26-34 | a missing limit becomes 50, others are cut down to a whole number and to the range 1 to 200, changing no more than that needs |
| KeysetPaging.PageShape | runtime/subsystems/events/event-bus.memory-backend.ts:218-244 | a page is sorted and past the cursor, and what it leaves out is past the next cursor |
| KeysetPaging.PageSpelledOut | runtime/subsystems/events/event-bus.memory-backend.ts:190-244 | a page holds what passes every filter and lies past the cursor, later occurredAt first and larger id first on a tie; whatever of that it leaves out comes after its last item, which the next cursor then names, and there is a next cursor only if something is left out and the page is full |
| KeysetPaging.PagesSpelledOut | runtime/subsystems/events/event-bus.memory-backend.ts:190-245 | what a reader gets that follows the cursor, with any limits and appends, is newest first, asked for and past its first cursor; on finishing it has all such events that were there at the start |
| TextOrder.LessMeans | runtime/subsystems/events/event-bus.memory-backend.ts:222 | ids compare by the first character in which they differ, or by length if one begins the other |
| KeysetPaging.PagesCoverOnce | runtime/subsystems/events/event-bus.memory-backend.ts:190-245 | following the cursor with any limits and appends gives matching events in order, and on finishing every matching event present at the start |
| KeysetPaging.NoneTwice | runtime/subsystems/events/event-bus.memory-backend.ts:225-242 | no event is returned twice across pages |
| KeysetPaging.PagesConcatenateToListing | runtime/subsystems/events/event-bus.memory-backend.ts:190-245 | without appends the pages concatenate to the sorted filtered listing |
| KeysetPaging.QuietReaderFinishes | runtime/subsystems/events/event-bus.memory-backend.ts:235-242 | without appends a reader reaches the last page within as many calls as events, plus one |
| InMemoryBus.MemoryEventBus.Dispatch | runtime/subsystems/events/event-bus.memory-backend.ts:305-326 | calls every handler in order even after one throws, and reports the first throw |
| InMemoryBus.MemoryEventBus.Publish | runtime/subsystems/events/event-bus.memory-backend.ts:92-106 | refused exactly when the tier check fails; otherwise the event stays in the log, the subscribers its pool admits are called, and the first throw among them is the call's |
| InMemoryBus.MemoryEventBus.FindById | runtime/subsystems/events/event-bus.memory-backend.ts:114-116 | a published event with the id, or there is none |
| InMemoryBus.MemoryEventBus.MaterializeScheduledEvent | runtime/subsystems/events/event-bus.memory-backend.ts:134-155 | appends its tick exactly when the type has no event for the slot yet, and calls the subscribers then; a throw is passed on with the tick recorded |
| InMemoryBus.MemoryEventBus.LastScheduledSlotMs | runtime/subsystems/events/event-bus.memory-backend.ts:158-167 | the greatest occurredAt among the type's scheduled events, or none |
| InMemoryBus.MemoryEventBus.Clear | runtime/subsystems/events/event-bus.memory-backend.ts:248-251 | empties the log and the subscriptions and leaves the slot set, which then mirrors the log only if it was empty |
| InMemoryBus.SetAgreesWithIndex | runtime/subsystems/events/event-bus.memory-backend.ts:118-138 | the set keyed by slot key alone answers like a unique index on (type, slot key) |
| GraphCycles.CycleSearch.Dfs | src/analyzer/graph-builder.ts:177-198 | terminates; the recursion stack is the path, cycles are simple and start earliest, every finished edge leads to an earlier finished node or closes a reported cycle |
| GraphCycles.CycleSearch.Report | src/analyzer/graph-builder.ts:185-193 | a target on the stack is on the path, so the fallback branch is never taken, and its cycle is reported |
| GraphCycles.BackEdge | src/analyzer/graph-builder.ts:187-189 | the slice of the path closed by a back edge is a simple cycle that starts at its earliest-discovered node |
| GraphCycles.SmallestName | src/analyzer/graph-builder.ts:212-214 | the reduce picks a least name of the cycle |
| GraphCycles.NormalizedInjective | src/analyzer/graph-builder.ts:212-215 | rotating the closed list to its smallest name tells any two simple cycles apart |
| GraphCycles.KeyInjective | src/analyzer/graph-builder.ts:212-216 | with names free of the arrow, different cycles have different keys, so deduplication drops nothing that differs |
| GraphCycles.Deduplicate | src/analyzer/graph-builder.ts:206-222 | keeps distinct lists only, and one for every key |
| GraphCycles.FindCircularDependencies | src/analyzer/graph-builder.ts:172-225 | only real simple cycles, no two of them rotations, at least one exactly when a cycle is reachable, and cutting their closing edges leaves no reachable cycle |
| DomainGraph.BuildDomainGraph | src/analyzer/graph-builder.ts:47-115 | an edge is listed exactly if an entity of its origin's name declares a resolved relationship of its name to its target, or a definition of its name runs between the two and both are entities; so a cycle is reachable exactly when there is any |
| Digraph.ClosedWalkBroken | src/analyzer/graph-builder.ts:177-198 | with the finishing order of the search, every closed walk uses the closing edge of a listed cycle |
| Digraph.FirstStartFixesRotation | src/analyzer/graph-builder.ts:200-224 | cycles that start at their earliest-discovered node are rotations of each other only when equal |
| TransitivePaths.FindTransitivePaths | src/analyzer/transitive-suggester.ts:85-168 | terminates and returns exactly the paths of two to maxDepth hops from the source over has_many and has_one relationships that are not transitive themselves, through different entities, none but the source excluded, to one without a direct relationship; each once, in nondecreasing length |
| TransitivePaths.SuggestionMeans | src/analyzer/transitive-suggester.ts:85-168 | the recursive notion of a suggestion that the search keeps is that description of a path, hop by hop |
| TransitivePaths.ChainMeans | src/analyzer/transitive-suggester.ts:116-138 | what a chain is, spelled out: declared has_many/has_one hops from the source through pairwise different entities, none after the source excluded |
| TransitivePaths.Explore | src/analyzer/transitive-suggester.ts:109-164 | the inner loop appends exactly the eligible children and the reports of one entry |
| TransitivePaths.ExtendsExactly | src/analyzer/transitive-suggester.ts:116-138 | the loop's guards hold exactly when the longer path is again a chain |
| TransitivePaths.CompleteStep | src/analyzer/transitive-suggester.ts:103-165 | one turn of the queue loses no chain: each is expanded, queued or reported |
| TransitivePaths.HopsFixTarget | src/analyzer/transitive-suggester.ts:116-138 | the hops of a chain determine where it ends |
| MemoryCache.AlwaysTimersOk | runtime/subsystems/cache/cache.memory-backend.ts:44-115 | in every reachable state live timers and expiring records are in bijection, so an old timer never evicts a newer value |
| MemoryCache.AgreesWithPlainMap | runtime/subsystems/cache/cache.memory-backend.ts:34-77 | while TTLs fit a timer, every read agrees with a plain map with expiry, for all interleavings and late timers |
| MemoryCache.LongTtlEvictsEarly | runtime/subsystems/cache/cache.memory-backend.ts:53-56 | for every TTL beyond the timer limit, a run in which a live value is gone after a millisecond |
| MemoryCache.AgreesExactly | runtime/subsystems/cache/cache.memory-backend.ts:44-57 | the cache is a plain map with expiry if and only if the TTL is at most 2^31 - 1 ms |
| MemoryCache.ReadsLastWrite | runtime/subsystems/cache/cache.memory-backend.ts:34-72 | while TTLs fit a timer, after any interleaving of operations and timers a read at `now` gives the value of the last operation on the key if that was a set without a TTL or set at `a` with now < a + ttl * 1000, and null if it was older, a delete or a matching invalidation |
| MemoryCache.ReadsNothingUnwritten | runtime/subsystems/cache/cache.memory-backend.ts:34-42 | a key no operation has touched reads as null |
| MemoryCache.SetStartsTimer | runtime/subsystems/cache/cache.memory-backend.ts:44-57 | a set with a TTL leaves exactly one timer for its key, due after the TTL or, beyond the timer limit, after a millisecond; without one it leaves none |
| CacheStampede.AlwaysTracked | runtime/subsystems/cache/cache.memory-backend.ts:88-100 | the in-flight map names exactly the unsettled computations, each under its key |
| CacheStampede.OneFactoryPerKey | runtime/subsystems/cache/cache.memory-backend.ts:88-100 | never two computations of one key at a time |
| CacheStampede.MissesShare | runtime/subsystems/cache/cache.memory-backend.ts:88-90 | misses of one key share a computation until it settles |
| CacheService.MemoryCacheService.Get | runtime/subsystems/cache/cache.memory-backend.ts:34-42 | returns the stored value while it has no expiry or expiresAt > now, else null, and drops an expired record |
| CacheService.MemoryCacheService.Has | runtime/subsystems/cache/cache.memory-backend.ts:74-77 | true exactly when the stored value is not null and has no expiry or expiresAt > now |
| CacheService.MemoryCacheService.Set | runtime/subsystems/cache/cache.memory-backend.ts:44-57 | replaces record and timer, with the default TTL when none is given |
| CacheService.MemoryCacheService.InvalidateByPrefix | runtime/subsystems/cache/cache.memory-backend.ts:63-72 | the loop removes exactly the stored keys with the prefix, with their timers, and counts them |
| CacheService.MemoryCacheService.TimerFires | runtime/subsystems/cache/cache.memory-backend.ts:54-55 | a due timer evicts its key |
| CacheService.MemoryCacheService.GetOrSetAfterMiss | runtime/subsystems/cache/cache.memory-backend.ts:88-100 | joins the computation in flight or starts one |
| CacheService.MemoryCacheService.FactoryResolved | runtime/subsystems/cache/cache.memory-backend.ts:92-95 | the value is stored before the computation counts as resolved |
| CacheService.MemoryCacheService.FactorySettled | runtime/subsystems/cache/cache.memory-backend.ts:95-97 | success or failure, the key can be computed again |
| IntegrationUpsert.AlwaysOnePerIdentity | runtime/base-classes/integrated-entity-repository.ts:83-229 | over any run of upserts, batches and deletes: one row per (provider, externalId), and no row loses a resolved foreign key, its id or its deletion mark |
| IntegrationUpsert.ResolveAllExactly | runtime/base-classes/integrated-entity-repository.ts:93-96 | resolution fails exactly when a strict parent is missing or unknown, and otherwise gives each column its parent |
| IntegrationUpsert.RepeatExactly | runtime/base-classes/integrated-entity-repository.ts:83-148 | repeating a write succeeds, and changes only updatedAt if and only if the write has an external id and the first one did not create a row that one of its own columns names |
| IntegrationUpsert.UpdateSpelledOut | runtime/base-classes/integrated-entity-repository.ts:83-148 | an upsert that lands on an existing row writes the columns the write defines and, for each deciding resolver whose parent is found, that parent's id; every other column, foreign key, row, the id, the identity and the deletion mark stay as they were |
| IntegrationUpsert.InsertSpelledOut | runtime/base-classes/integrated-entity-repository.ts:83-148 | any other upsert adds one row with the identity, exactly the columns the write defines, and each foreign key with the parent found or null |
| IntegrationUpsert.ResolvedMeans | runtime/base-classes/integrated-entity-repository.ts:264-302 | a column's parent is the first row of the entity with the named identity, or the known row of the other table, or none if the write names no parent |
| IntegrationUpsert.DeleteSpelledOut | runtime/base-classes/integrated-entity-repository.ts:179-199 | a delete changes the row with the identity and no other: a soft one stamps deletedAt and updatedAt, the other clears provider and external id |
| IntegrationUpsert.BatchInput | runtime/base-classes/integrated-entity-repository.ts:207-229 | one more input of a batch is one more upsert and one more answered row, or changes and answers nothing if it lacks a provider or an external id |
| IntegrationUpsert.DeletedThenWritten | runtime/base-classes/integrated-entity-repository.ts:179-199 | a soft-deleted row is found, updated and stays deleted; a cleared row is not found and a new one is added beside it |
| IntegrationUpsert.BatchCommitsAll | runtime/base-classes/integrated-entity-repository.ts:207-229 | a committed batch has a row for every input with an identity, showing the last write to it |
| IntegratedRepository.IntegratedEntityRepository.ResolveOne | runtime/base-classes/integrated-entity-repository.ts:264-302 | strict and opportunistic resolution against this or another table |
| IntegratedRepository.IntegratedEntityRepository.SetOfFks | runtime/base-classes/integrated-entity-repository.ts:118-120 | only foreign keys resolved this time are written over a row |
| IntegratedRepository.IntegratedEntityRepository.IntegrationUpsertOne | runtime/base-classes/integrated-entity-repository.ts:83-148 | inserts or updates as UpdateSpelledOut and InsertSpelledOut say and returns the saved row; a failed resolution writes nothing |
| IntegratedRepository.IntegratedEntityRepository.FindByExternalIdProjected | runtime/base-classes/integrated-entity-repository.ts:155-171 | a row with the identity, or there is none |
| IntegratedRepository.IntegratedEntityRepository.SoftDeleteByExternalId | runtime/base-classes/integrated-entity-repository.ts:179-199 | marks or clears exactly the row with the identity and returns its id |
| IntegratedRepository.IntegratedEntityRepository.IntegrationUpsert | runtime/base-classes/integrated-entity-repository.ts:207-229 | the batch commits as a whole with the saved rows of its inputs, or leaves the rows as they were |
| IntegrationUpsert.BatchAnswers | runtime/base-classes/integrated-entity-repository.ts:207-229 | the rows a batch returns are one per input that is not skipped, in order, each with its input's identity and columns |
| Delimited.RoundTripExactly | runtime/base-classes/junction-integration-repository.ts:268-295 | joining is undone by splitting exactly for parts free of the delimiter of which none but the last ends in half of a doubled one |
| CompositeIds.ParseAfterBuildExactly | runtime/base-classes/junction-integration-repository.ts:268-295 | parse after build returns the parts if and only if all are non-empty and free of the delimiter and only the last may end in a colon |
| CompositeIds.BuildAfterParse | runtime/base-classes/junction-integration-repository.ts:283-295 | build after a successful parse returns the string |
| CompositeIds.ParsesExactly | runtime/base-classes/junction-integration-repository.ts:283-295 | a string parses to these parts if and only if they joined by double colons are the string, none is empty or holds a double colon, and only the last may end in a colon |
| JunctionIntegration.FoundAgainExactly | runtime/base-classes/junction-integration-repository.ts:57-137 | a junction just upserted is found by its returned id if and only if its parts are readable |
| JunctionIntegration.StaysFoundExactly | runtime/base-classes/junction-integration-repository.ts:57-165 | after an upsert the junction is found by the returned id at every point of a run if and only if its parts are readable and the run neither deletes that id nor changes what its parents resolve to |
| JunctionIntegration.AbsentAfterDelete | runtime/base-classes/junction-integration-repository.ts:145-165 | deleting by the returned id removes exactly the rows of that identity |
| JunctionIntegration.AlwaysOnePerTuple | runtime/base-classes/junction-integration-repository.ts:83-94 | over any run the identity tuple stays unique |
| JunctionIntegration.UpsertSpelledOut | runtime/base-classes/junction-integration-repository.ts:57-101 | an upsert fails for the left parent first if it is unknown or its id empty, then for the right one; else it stamps the first row that relates the two parents, in the write's role if the junction has roles, or adds one with these ids and role at the end |
| JunctionIntegration.FindSpelledOut | runtime/base-classes/junction-integration-repository.ts:109-137 | a lookup answers the first row that relates the parents an id names, in the role it names, and nothing if the id does not parse or names an unknown parent |
| JunctionIntegration.DeleteSpelledOut | runtime/base-classes/junction-integration-repository.ts:145-165 | a delete keeps a row if and only if it does not relate the parents the id names in the role it names |
| JunctionRepository.JunctionIntegrationRepository.IntegrationUpsertOne | runtime/base-classes/junction-integration-repository.ts:57-101 | fails, left side first, exactly when a parent is unknown or its id empty; else stamps the first row of the tuple or adds one, and returns it under left::right or left::right::role, a missing role printed as null |
| JunctionRepository.JunctionIntegrationRepository.FindByExternalIdProjected | runtime/base-classes/junction-integration-repository.ts:109-137 | the row a composite id stands for, under that id |
| JunctionRepository.JunctionIntegrationRepository.SoftDeleteByExternalId | runtime/base-classes/junction-integration-repository.ts:145-165 | removes the rows of the identity and answers the id exactly when there was one |
| DeliveryLedger.KeyReadsBackExactly | runtime/subsystems/bridge/bridge-delivery.memory-backend.ts:37-39 | the event id can be read from the key if and only if it neither holds the delimiter nor ends in a colon |
| DeliveryLedger.BackendsAgree | runtime/subsystems/bridge/bridge-delivery.memory-backend.ts:44-107 | over any inserts and transitions both backends hold the same records, and the map throws exactly where the table touches nothing |
| BridgeDeliveryRepos.MemoryBridgeDeliveryRepo.InsertDelivery | runtime/subsystems/bridge/bridge-delivery.memory-backend.ts:44-71 | adds the record, or throws the typed conflict and changes nothing |
| BridgeDeliveryRepos.MemoryBridgeDeliveryRepo.FindDelivery | runtime/subsystems/bridge/bridge-delivery.memory-backend.ts:73-78 | the entry under the pair's key, or there is none |
| BridgeDeliveryRepos.MemoryBridgeDeliveryRepo.FindDeliveryById | runtime/subsystems/bridge/bridge-delivery.memory-backend.ts:80-85 | a record with the id, or there is none |
| BridgeDeliveryRepos.MemoryBridgeDeliveryRepo.MarkDelivered | runtime/subsystems/bridge/bridge-delivery.memory-backend.ts:87-92 | sets status, user run and delivery time of the first record with the id and nothing else, or throws if there is none |
| BridgeDeliveryRepos.MemoryBridgeDeliveryRepo.MarkSkipped | runtime/subsystems/bridge/bridge-delivery.memory-backend.ts:94-98 | sets status and reason of the first record with the id and nothing else, or throws if there is none |
| BridgeDeliveryRepos.MemoryBridgeDeliveryRepo.MarkFailed | runtime/subsystems/bridge/bridge-delivery.memory-backend.ts:100-107 | sets status and error of the first record with the id and nothing else, or throws if there is none |
| BridgeDeliveryRepos.MemoryBridgeDeliveryRepo.GetStatusHistogram | runtime/subsystems/bridge/bridge-delivery.memory-backend.ts:116-150 | each count is the number of records in the window and tenant filter with that status; a non-positive window is an error |
| BridgeDeliveryRepos.DrizzleBridgeDeliveryRepo.InsertDelivery | runtime/subsystems/bridge/bridge-delivery.drizzle-backend.ts:57-83 | a taken pair is a silent no-op |
| BridgeDeliveryRepos.DrizzleBridgeDeliveryRepo.Update | runtime/subsystems/bridge/bridge-delivery.drizzle-backend.ts:111-137 | changes every row with the id and no other; no row is no error |
| BridgeDeliveryRepos.DrizzleBridgeDeliveryRepo.MarkDelivered | runtime/subsystems/bridge/bridge-delivery.drizzle-backend.ts:111-124 | sets status, user run and delivery time of every row with the id and changes nothing else |
| BridgeDeliveryRepos.DrizzleBridgeDeliveryRepo.MarkSkipped | runtime/subsystems/bridge/bridge-delivery.drizzle-backend.ts:127-136 | sets status and reason of every row with the id and changes nothing else |
| BridgeDeliveryRepos.DrizzleBridgeDeliveryRepo.MarkFailed | runtime/subsystems/bridge/bridge-delivery.drizzle-backend.ts:139-148 | sets status and error of every row with the id and changes nothing else |

## Left out

- SQL text, lock internals, LISTEN/NOTIFY connections, the Redis backend and the notification calls; only their transaction, constraint and claim behaviour is modelled.
- What subscribers do: which events are dispatched is modelled, on the in-memory bus also which handler throws, but no handler calls the bus back. Unsubscribing is left out.
- Tenant gates (`assertTenantId`) and the tenant column of bridge rows: they reject calls before anything is written.
- `markFailed` in the bridge protocol: the documentation names an outer caller after retry exhaustion, the code has none. The ledger repositories model the method itself.
- `IJobOrchestrator.start` is one fresh run in the given transaction; its deduplication and concurrency keys and unknown job types are not modelled, a failing start is.
- `when` predicates are pure and the registry is fixed; a direction named like a built-in object property is not modelled.
- A drain bus without a bridge hook installed.
- `align: false` schedules beyond AnchorsAgreeExactly, fractional milliseconds and the duration parser.
- Scheduling.EventScheduler.MaterializeOne: aligned schedules only.
- Scheduling.EventScheduler.BackfillMissed: aligned schedules only.
- Scheduling.EventScheduler.MaterializeBoot: aligned schedules only.
- Scheduling.EventScheduler.MaterializeTick: aligned schedules only.
- Cursor text: encode and decode are taken as an inverse pair, so a cursor is its (occurredAt, id), and one that does not decode is none.
- InMemoryBus.MemoryEventBus.LastScheduledSlotMs: scheduled events are recognised by their slot key rather than by the trigger source; the materialiser sets both.
- Fractional TTLs, and a cached `undefined`, which the source tells apart from null.
- IntegratedRepository.IntegratedEntityRepository.IntegrationUpsertOne: foreign keys and write columns are separate maps; a configuration that listed a foreign-key column among the write columns, which its documentation excludes, would write null over the key.
- The conflict target of an integration upsert is (provider, externalId); the configuration could name other columns.
- JunctionRepository.JunctionIntegrationRepository.IntegrationUpsertOne: a junction with timestamps off is modelled as success although its update set would be empty; generated ones have them on.
- The custom-field write of an integration upsert, projections onto chosen columns, and user-scoped lookups.
- IntegratedRepository.IntegratedEntityRepository.IntegrationUpsert: the row read back by id after each input is the row just saved, as ids are unique.
- BridgeDeliveryRepos.MemoryBridgeDeliveryRepo.FindDelivery: the source hands out the live record, so a caller can change it in place; here it is a value.
- The table backend's grouped histogram query, the ledger's test helpers, and the defaults it fills in for columns an insert omits.
- Cardinality and direction flags of domain-graph edges.
- Suggestion names and snippets, related entities, orphans, statistics, manifests, formatters, parsers, modules and logging: plumbing or easy members.
