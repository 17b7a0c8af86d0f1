/** Scheduler passes racing into one store. */
module ScheduleFleet {
  import opened Options
  import opened SlotKeys
  import opened SlotMath
  import opened Backfill

  datatype Tick = Tick(kind: string, slot: int)

  /** One materializeScheduledEvent call and what it reported. */
  datatype Attempt = Attempt(tick: Tick, created: bool)

  /** What a pass still has to do. A catch-up entry reads the last recorded slot when it is reached. */
  datatype Todo = OneSlot(tick: Tick) | CatchUp(schedule: Schedule, now: int)

  datatype Fleet = Fleet(rows: seq<Tick>, log: seq<Attempt>, todo: map<nat, seq<Todo>>)

  datatype Action =
    | BootPass(pass: nat, now: int)
    | TickPass(pass: nat, now: int)
    | Proceed(pass: nat)
    | Break(pass: nat)

  const EMPTY := Fleet([], [], map[])

  /** Registry entries are keyed by event type. */
  ghost predicate WellFormed(schedules: seq<Schedule>) {
    forall j, k :: 0 <= j < k < |schedules| ==> schedules[j].kind != schedules[k].kind
  }

  /** The partial unique index on (type, scheduleSlot) already has this key. */
  ghost predicate Recorded(rows: seq<Tick>, tick: Tick) {
    exists k :: 0 <= k < |rows| && rows[k].kind == tick.kind
      && SlotKeyFor(rows[k].kind, rows[k].slot) == SlotKeyFor(tick.kind, tick.slot)
  }

  lemma RecordedIsPresence(rows: seq<Tick>, tick: Tick)
    ensures Recorded(rows, tick) <==> tick in rows
  {
    if Recorded(rows, tick) {
      var k :| 0 <= k < |rows| && rows[k].kind == tick.kind
        && SlotKeyFor(rows[k].kind, rows[k].slot) == SlotKeyFor(tick.kind, tick.slot);
      SlotKeyInjective(rows[k].kind, rows[k].slot, tick.kind, tick.slot);
      assert rows[k] == tick;
    }
  }

  ghost function Materialise(f: Fleet, tick: Tick): Fleet {
    if Recorded(f.rows, tick) then f.(log := f.log + [Attempt(tick, false)])
    else f.(rows := f.rows + [tick], log := f.log + [Attempt(tick, true)])
  }

  function LastSlot(rows: seq<Tick>, kind: string): (r: Option<int>)
    ensures r.None? <==> forall k :: 0 <= k < |rows| ==> rows[k].kind != kind
    ensures r.Some? ==>
      && Tick(kind, r.value) in rows
      && forall k :: 0 <= k < |rows| && rows[k].kind == kind ==> rows[k].slot <= r.value
  {
    if rows == [] then None
    else
      var n := |rows| - 1;
      var best := LastSlot(rows[..n], kind);
      assert forall k :: 0 <= k < n ==> rows[k] == rows[..n][k];
      if rows[n].kind == kind && (best.None? || rows[n].slot > best.value)
      then (assert rows[n] == Tick(kind, rows[n].slot); Some(rows[n].slot)) else best
  }

  function Slots(kind: string, slots: seq<int>): seq<Todo> {
    seq(|slots|, k requires 0 <= k < |slots| => OneSlot(Tick(kind, slots[k])))
  }

  function Expand(rows: seq<Tick>, s: Schedule, now: int): seq<Todo> {
    Slots(s.kind, BackfillSlots(LastSlot(rows, s.kind), Aligned(now, s.everyMs), s.everyMs, s.maxCatchUpSlots))
  }

  function BootTodo(schedules: seq<Schedule>, now: int): seq<Todo>
  {
    if schedules == [] then []
    else
      var s := schedules[0];
      var share := if s.catchUp then CatchUp(s, now) else OneSlot(Tick(s.kind, Aligned(now, s.everyMs)));
      [share] + BootTodo(schedules[1..], now)
  }

  function TickTodo(schedules: seq<Schedule>, now: int): seq<Todo>
  {
    if schedules == [] then []
    else
      var s := schedules[0];
      var current := Aligned(now, s.everyMs);
      [OneSlot(Tick(s.kind, current)), OneSlot(Tick(s.kind, current + s.everyMs))] + TickTodo(schedules[1..], now)
  }

  function KindOf(todo: Todo): string {
    if todo.OneSlot? then todo.tick.kind else todo.schedule.kind
  }

  /** A throw ends the current schedule's share of the pass; the next schedule is still served. */
  function DropKind(todo: seq<Todo>, kind: string): seq<Todo> {
    if todo != [] && KindOf(todo[0]) == kind then DropKind(todo[1..], kind) else todo
  }

  predicate Busy(f: Fleet, pass: nat) {
    pass in f.todo && f.todo[pass] != []
  }

  ghost function Advance(f: Fleet, pass: nat): Fleet
    requires Busy(f, pass)
  {
    var head, rest := f.todo[pass][0], f.todo[pass][1..];
    match head
    case OneSlot(tick) => Materialise(f.(todo := f.todo[pass := rest]), tick)
    case CatchUp(s, now) =>
      f.(todo := f.todo[pass := Expand(f.rows, s, now) + rest])
  }

  ghost function Step(schedules: seq<Schedule>, f: Fleet, a: Action): Fleet
  {
    match a
    case BootPass(p, now) => if Busy(f, p) then f else f.(todo := f.todo[p := BootTodo(schedules, now)])
    case TickPass(p, now) => if Busy(f, p) then f else f.(todo := f.todo[p := TickTodo(schedules, now)])
    case Proceed(p) => if Busy(f, p) then Advance(f, p) else f
    case Break(p) => if Busy(f, p) then f.(todo := f.todo[p := DropKind(f.todo[p], KindOf(f.todo[p][0]))]) else f
  }

  // ---------------------------------------------------------------- the invariant

  ghost predicate OnGrid(schedules: seq<Schedule>, tick: Tick) {
    exists s :: s in schedules && s.kind == tick.kind && tick.slot % s.everyMs == 0
  }

  ghost predicate TodoOk(schedules: seq<Schedule>, todo: Todo) {
    match todo
    case OneSlot(tick) => OnGrid(schedules, tick)
    case CatchUp(s, _) => s in schedules
  }

  /** The ticks of the attempts that reported `created`, in order. */
  function Created(log: seq<Attempt>): seq<Tick> {
    if log == [] then []
    else
      var before := Created(log[..|log| - 1]);
      if log[|log| - 1].created then before + [log[|log| - 1].tick] else before
  }

  ghost predicate RowsOk(schedules: seq<Schedule>, rows: seq<Tick>) {
    forall k :: 0 <= k < |rows| ==> OnGrid(schedules, rows[k])
  }

  ghost predicate AllOk(schedules: seq<Schedule>, todo: seq<Todo>) {
    forall k :: 0 <= k < |todo| ==> TodoOk(schedules, todo[k])
  }

  ghost predicate FleetOk(schedules: seq<Schedule>, f: Fleet) {
    && (forall j, k :: 0 <= j < k < |f.rows| ==> f.rows[j] != f.rows[k])
    && RowsOk(schedules, f.rows)
    && f.rows == Created(f.log)
    && (forall k :: 0 <= k < |f.log| ==> f.log[k].tick in f.rows)
    && (forall p :: p in f.todo ==> AllOk(schedules, f.todo[p]))
  }

  lemma MaterialiseKeeps(schedules: seq<Schedule>, f: Fleet, tick: Tick)
    requires FleetOk(schedules, f) && OnGrid(schedules, tick)
    ensures FleetOk(schedules, Materialise(f, tick))
  {
    RecordedIsPresence(f.rows, tick);
    var g := Materialise(f, tick);
    assert g.log[..|g.log| - 1] == f.log;
  }

  lemma {:induction false} BootTodoOk(schedules: seq<Schedule>, all: seq<Schedule>, now: int)
    requires forall k :: 0 <= k < |schedules| ==> schedules[k] in all
    ensures AllOk(all, BootTodo(schedules, now))
  {
    if schedules != [] {
      BootTodoOk(schedules[1..], all, now);
      var s := schedules[0];
      SlotContains(now, s.everyMs, Aligned(now, s.everyMs));
      assert OnGrid(all, Tick(s.kind, Aligned(now, s.everyMs)));
    }
  }

  lemma {:induction false} TickTodoOk(schedules: seq<Schedule>, all: seq<Schedule>, now: int)
    requires forall k :: 0 <= k < |schedules| ==> schedules[k] in all
    ensures AllOk(all, TickTodo(schedules, now))
  {
    if schedules != [] {
      TickTodoOk(schedules[1..], all, now);
      var s := schedules[0];
      var current := Aligned(now, s.everyMs);
      SlotContains(now, s.everyMs, current);
      SameResidue(current + s.everyMs, current, 1, s.everyMs);
      assert OnGrid(all, Tick(s.kind, current)) && OnGrid(all, Tick(s.kind, current + s.everyMs));
    }
  }

  lemma SameSchedule(schedules: seq<Schedule>, s: Schedule, tick: Tick)
    requires WellFormed(schedules) && s in schedules && OnGrid(schedules, tick) && tick.kind == s.kind
    ensures tick.slot % s.everyMs == 0
  {
  }

  lemma CatchUpOk(schedules: seq<Schedule>, rows: seq<Tick>, s: Schedule, now: int)
    requires WellFormed(schedules) && RowsOk(schedules, rows) && s in schedules
    ensures AllOk(schedules, Expand(rows, s, now))
  {
    var last := LastSlot(rows, s.kind);
    var current := Aligned(now, s.everyMs);
    if last.Some? { SameSchedule(schedules, s, Tick(s.kind, last.value)); }
    SlotContains(now, s.everyMs, current);
    BackfillOnGrid(schedules, s, last, current);
    SlotsOk(schedules, s.kind, BackfillSlots(last, current, s.everyMs, s.maxCatchUpSlots));
  }

  lemma BackfillOnGrid(schedules: seq<Schedule>, s: Schedule, last: Option<int>, current: int)
    requires s in schedules && current % s.everyMs == 0 && (last.Some? ==> last.value % s.everyMs == 0)
    ensures forall x :: x in BackfillSlots(last, current, s.everyMs, s.maxCatchUpSlots) ==>
      OnGrid(schedules, Tick(s.kind, x))
  {
    forall x | x in BackfillSlots(last, current, s.everyMs, s.maxCatchUpSlots)
      ensures OnGrid(schedules, Tick(s.kind, x))
    {
      if s.maxCatchUpSlots >= 1 {
        BackfillExactly(last, current, s.everyMs, s.maxCatchUpSlots, x);
      } else {
        NoBudget(last, current, s.everyMs, s.maxCatchUpSlots);
      }
    }
  }

  /** A throw leaves of a pass what follows the current schedule's share. */
  lemma {:induction false} DropKindLeaves(todo: seq<Todo>, kind: string) returns (k: nat)
    ensures k <= |todo| && DropKind(todo, kind) == todo[k..]
    ensures forall j :: 0 <= j < k ==>
      if todo[j].OneSlot? then todo[j].tick.kind == kind else todo[j].schedule.kind == kind
    ensures k < |todo| ==> if todo[k].OneSlot? then todo[k].tick.kind != kind else todo[k].schedule.kind != kind
  {
    k := 0;
    if todo != [] && KindOf(todo[0]) == kind {
      k := DropKindLeaves(todo[1..], kind);
      k := k + 1;
    }
  }

  lemma TodoReplaced(schedules: seq<Schedule>, f: Fleet, p: nat, todo: seq<Todo>)
    requires FleetOk(schedules, f) && AllOk(schedules, todo)
    ensures FleetOk(schedules, f.(todo := f.todo[p := todo]))
  {
  }

  lemma SlotsOk(schedules: seq<Schedule>, kind: string, slots: seq<int>)
    requires forall x :: x in slots ==> OnGrid(schedules, Tick(kind, x))
    ensures AllOk(schedules, Slots(kind, slots))
  {
    forall k | 0 <= k < |slots| ensures TodoOk(schedules, Slots(kind, slots)[k]) { assert slots[k] in slots; }
  }

  lemma ConcatOk(schedules: seq<Schedule>, a: seq<Todo>, b: seq<Todo>)
    requires AllOk(schedules, a) && AllOk(schedules, b)
    ensures AllOk(schedules, a + b)
  {
    forall k | 0 <= k < |a + b| ensures TodoOk(schedules, (a + b)[k]) {
      if k >= |a| { assert (a + b)[k] == b[k - |a|]; }
    }
  }

  lemma CatchUpKeeps(schedules: seq<Schedule>, f: Fleet, p: nat, s: Schedule, now: int, rest: seq<Todo>)
    requires WellFormed(schedules) && FleetOk(schedules, f) && Busy(f, p) && f.todo[p] == [CatchUp(s, now)] + rest
    ensures FleetOk(schedules, f.(todo := f.todo[p := Expand(f.rows, s, now) + rest]))
  {
    assert TodoOk(schedules, f.todo[p][0]);
    forall k | 0 <= k < |rest| ensures TodoOk(schedules, rest[k]) { assert rest[k] == f.todo[p][k + 1]; }
    CatchUpOk(schedules, f.rows, s, now);
    ConcatOk(schedules, Expand(f.rows, s, now), rest);
    TodoReplaced(schedules, f, p, Expand(f.rows, s, now) + rest);
  }

  lemma AdvanceKeeps(schedules: seq<Schedule>, f: Fleet, p: nat)
    requires WellFormed(schedules) && FleetOk(schedules, f) && Busy(f, p)
    ensures FleetOk(schedules, Advance(f, p))
  {
    if f.todo[p][0].CatchUp? {
      CatchUpKeeps(schedules, f, p, f.todo[p][0].schedule, f.todo[p][0].now, f.todo[p][1..]);
    } else {
      assert TodoOk(schedules, f.todo[p][0]);
      TodoReplaced(schedules, f, p, f.todo[p][1..]);
      MaterialiseKeeps(schedules, f.(todo := f.todo[p := f.todo[p][1..]]), f.todo[p][0].tick);
    }
  }

  lemma BreakKeeps(schedules: seq<Schedule>, f: Fleet, p: nat)
    requires FleetOk(schedules, f) && Busy(f, p)
    ensures FleetOk(schedules, Step(schedules, f, Break(p)))
  {
    var k := DropKindLeaves(f.todo[p], KindOf(f.todo[p][0]));
    TodoReplaced(schedules, f, p, f.todo[p][k..]);
  }

  lemma StepKeeps(schedules: seq<Schedule>, f: Fleet, a: Action)
    requires WellFormed(schedules) && FleetOk(schedules, f)
    ensures FleetOk(schedules, Step(schedules, f, a))
  {
    match a
    case BootPass(p, now) =>
      BootTodoOk(schedules, schedules, now);
      TodoReplaced(schedules, f, p, BootTodo(schedules, now));
    case TickPass(p, now) =>
      TickTodoOk(schedules, schedules, now);
      TodoReplaced(schedules, f, p, TickTodo(schedules, now));
    case Proceed(p) => if Busy(f, p) { AdvanceKeeps(schedules, f, p); }
    case Break(p) => if Busy(f, p) { BreakKeeps(schedules, f, p); }
  }

  ghost function Run(schedules: seq<Schedule>, actions: seq<Action>): Fleet {
    if actions == [] then EMPTY
    else Step(schedules, Run(schedules, actions[..|actions| - 1]), actions[|actions| - 1])
  }

  lemma {:induction false} AlwaysOk(schedules: seq<Schedule>, actions: seq<Action>)
    requires WellFormed(schedules)
    ensures FleetOk(schedules, Run(schedules, actions))
  {
    if actions != [] {
      AlwaysOk(schedules, actions[..|actions| - 1]);
      StepKeeps(schedules, Run(schedules, actions[..|actions| - 1]), actions[|actions| - 1]);
    }
  }

  // ---------------------------------------------------------------- what a pass plans

  /** The slot that holds the instant. */
  predicate Holds(s: Schedule, x: int, now: int) {
    x % s.everyMs == 0 && x <= now < x + s.everyMs
  }

  lemma HoldsMeans(s: Schedule, x: int, now: int)
    ensures Holds(s, x, now) <==> x == Aligned(now, s.everyMs)
  {
    SlotContains(now, s.everyMs, x);
  }

  /** The slot that holds the instant, or the one after it. */
  predicate PlannedAtTick(s: Schedule, now: int, todo: Todo) {
    && todo.OneSlot? && todo.tick.kind == s.kind
    && (Holds(s, todo.tick.slot, now) || Holds(s, todo.tick.slot - s.everyMs, now))
  }

  /** A schedule that catches up is left to do so; any other is to have the slot that holds the instant. */
  predicate PlannedAtBoot(s: Schedule, now: int, todo: Todo) {
    if s.catchUp then todo == CatchUp(s, now)
    else todo.OneSlot? && todo.tick.kind == s.kind && Holds(s, todo.tick.slot, now)
  }

  /** A tick pass is to attempt, for each schedule, the slot that holds the instant and the one after it. */
  lemma {:induction false} TickPassPlans(schedules: seq<Schedule>, now: int, todo: Todo)
    ensures todo in TickTodo(schedules, now) <==>
      exists k :: 0 <= k < |schedules| && PlannedAtTick(schedules[k], now, todo)
  {
    if schedules != [] {
      var s, rest := schedules[0], schedules[1..];
      TickPassPlans(rest, now, todo);
      if todo.OneSlot? {
        HoldsMeans(s, todo.tick.slot, now);
        HoldsMeans(s, todo.tick.slot - s.everyMs, now);
      }
      assert PlannedAtTick(s, now, todo) <==> todo in TickTodo(schedules, now)[..2];
      assert TickTodo(schedules, now) == TickTodo(schedules, now)[..2] + TickTodo(rest, now);
      if k :| 0 <= k < |schedules| && PlannedAtTick(schedules[k], now, todo) {
        if k > 0 { assert rest[k - 1] == schedules[k]; }
      }
      if k :| 0 <= k < |rest| && PlannedAtTick(rest[k], now, todo) { assert schedules[k + 1] == rest[k]; }
      if PlannedAtTick(s, now, todo) { assert schedules[0] == s; }
    }
  }

  /** A boot pass is to catch up the schedules that say so, and to attempt the slot that holds the instant
      for each of the others. */
  lemma {:induction false} BootPassPlans(schedules: seq<Schedule>, now: int, todo: Todo)
    ensures todo in BootTodo(schedules, now) <==>
      exists k :: 0 <= k < |schedules| && PlannedAtBoot(schedules[k], now, todo)
  {
    if schedules != [] {
      var s, rest := schedules[0], schedules[1..];
      BootPassPlans(rest, now, todo);
      if todo.OneSlot? { HoldsMeans(s, todo.tick.slot, now); }
      assert PlannedAtBoot(s, now, todo) <==> todo == BootTodo(schedules, now)[0];
      if k :| 0 <= k < |schedules| && PlannedAtBoot(schedules[k], now, todo) {
        if k > 0 { assert rest[k - 1] == schedules[k]; }
      }
      if k :| 0 <= k < |rest| && PlannedAtBoot(rest[k], now, todo) { assert schedules[k + 1] == rest[k]; }
      if PlannedAtBoot(s, now, todo) { assert schedules[0] == s; }
    }
  }

  lemma InSlots(kind: string, slots: seq<int>, todo: Todo)
    ensures todo in Slots(kind, slots) <==> todo.OneSlot? && todo.tick.kind == kind && todo.tick.slot in slots
  {
    if todo.OneSlot? && todo.tick.kind == kind && todo.tick.slot in slots {
      var k :| 0 <= k < |slots| && slots[k] == todo.tick.slot;
      assert Slots(kind, slots)[k] == todo;
    }
  }

  /** A grid slot among the newest as many as the cap allows, and since the newest recorded one, or the
      current one if nothing older is recorded. */
  predicate PlannedAtCatchUp(s: Schedule, last: Option<int>, current: int, x: int) {
    && x % s.everyMs == 0 && current - s.maxCatchUpSlots * s.everyMs < x <= current
    && if last.Some? && last.value < current then last.value < x else current - s.everyMs < x
  }

  lemma CatchUpSlots(s: Schedule, last: Option<int>, current: int, x: int)
    requires current % s.everyMs == 0 && (last.Some? ==> last.value % s.everyMs == 0)
    ensures x in BackfillSlots(last, current, s.everyMs, s.maxCatchUpSlots) <==> PlannedAtCatchUp(s, last, current, x)
  {
    if s.maxCatchUpSlots < 1 {
      NoBudget(last, current, s.everyMs, s.maxCatchUpSlots);
      assert s.maxCatchUpSlots * s.everyMs <= 0;
    } else {
      BackfillExactly(last, current, s.everyMs, s.maxCatchUpSlots, x);
    }
  }

  /** What a catch-up is to attempt, seen from the slot that holds the instant; nothing without a cap. */
  lemma CatchUpPlans(rows: seq<Tick>, s: Schedule, now: int, current: int, todo: Todo)
    requires Holds(s, current, now)
    requires forall k :: 0 <= k < |rows| && rows[k].kind == s.kind ==> rows[k].slot % s.everyMs == 0
    ensures todo in Expand(rows, s, now) <==>
      todo.OneSlot? && todo.tick.kind == s.kind && PlannedAtCatchUp(s, LastSlot(rows, s.kind), current, todo.tick.slot)
  {
    var last := LastSlot(rows, s.kind);
    HoldsMeans(s, current, now);
    if last.Some? { var k :| 0 <= k < |rows| && rows[k] == Tick(s.kind, last.value); }
    InSlots(s.kind, BackfillSlots(last, current, s.everyMs, s.maxCatchUpSlots), todo);
    if todo.OneSlot? { CatchUpSlots(s, last, current, todo.tick.slot); }
  }

  // ---------------------------------------------------------------- what holds of every run

  /** The positions of the attempts that created this tick. */
  ghost function Creations(log: seq<Attempt>, tick: Tick): set<nat> {
    set k: nat | k < |log| && log[k] == Attempt(tick, true)
  }

  lemma {:induction false} CreatedMembers(log: seq<Attempt>, tick: Tick)
    ensures tick in Created(log) <==> Creations(log, tick) != {}
    ensures (forall j, k :: 0 <= j < k < |Created(log)| ==> Created(log)[j] != Created(log)[k]) ==>
      |Creations(log, tick)| <= 1
  {
    if log != [] {
      var n := |log| - 1;
      var before := log[..n];
      CreatedMembers(before, tick);
      assert forall k :: 0 <= k < n ==> before[k] == log[k];
      if log[n] == Attempt(tick, true) {
        assert Creations(log, tick) == Creations(before, tick) + {n};
        assert Created(log) == Created(before) + [tick];
        assert Created(log)[|Created(before)|] == tick;
        if tick in Created(before) {
          var k :| 0 <= k < |Created(before)| && Created(before)[k] == tick;
          assert Created(log)[k] == Created(log)[|Created(before)|];
        }
      } else {
        assert Creations(log, tick) == Creations(before, tick);
      }
      assert forall k :: 0 <= k < |Created(before)| ==> Created(log)[k] == Created(before)[k];
    }
  }

  /** Over every interleaving of boot and tick passes: no slot has two rows, every row lies on its
      type's grid, and the number of attempts that reported `created` for a slot is one if the slot
      has a row and zero if it has none. */
  lemma OneEventPerSlot(schedules: seq<Schedule>, actions: seq<Action>, tick: Tick)
    requires WellFormed(schedules)
    ensures var f := Run(schedules, actions);
      && (forall j, k :: 0 <= j < k < |f.rows| ==> f.rows[j] != f.rows[k])
      && (tick in f.rows ==> OnGrid(schedules, tick))
      && |Creations(f.log, tick)| == (if tick in f.rows then 1 else 0)
  {
    AlwaysOk(schedules, actions);
    var f := Run(schedules, actions);
    CreatedMembers(f.log, tick);
    if tick in f.rows { assert |Creations(f.log, tick)| != 0; }
  }

  /** Every slot any pass attempted, whether or not it won the race, has its row. */
  lemma AttemptedSlotsArePresent(schedules: seq<Schedule>, actions: seq<Action>, k: int)
    requires WellFormed(schedules) && 0 <= k < |Run(schedules, actions).log|
    ensures Run(schedules, actions).log[k].tick in Run(schedules, actions).rows
  {
    AlwaysOk(schedules, actions);
  }

  // ---------------------------------------------------------------- what a run attempts

  /** A pass of the run is to attempt this slot: a tick pass the slot that holds its instant and the next
      one, a boot pass that slot, or of a schedule that catches up any of the newest the cap allows. */
  ghost predicate Planned(schedules: seq<Schedule>, actions: seq<Action>, tick: Tick) {
    exists s, a :: s in schedules && a in actions && PlannedIn(s, a, tick)
  }

  predicate PlannedIn(s: Schedule, a: Action, tick: Tick) {
    && s.kind == tick.kind && tick.slot % s.everyMs == 0
    && match a
       case TickPass(_, now) => tick.slot - s.everyMs <= now < tick.slot + s.everyMs
       case BootPass(_, now) =>
         tick.slot <= now < tick.slot + (if s.catchUp then s.maxCatchUpSlots * s.everyMs else s.everyMs)
       case _ => false
  }

  ghost predicate TodoPlanned(schedules: seq<Schedule>, actions: seq<Action>, todo: Todo) {
    match todo
    case OneSlot(tick) => Planned(schedules, actions, tick)
    case CatchUp(s, now) => s.catchUp && exists p :: BootPass(p, now) in actions
  }

  ghost predicate AllPlanned(schedules: seq<Schedule>, actions: seq<Action>, f: Fleet) {
    && (forall k :: 0 <= k < |f.log| ==> Planned(schedules, actions, f.log[k].tick))
    && forall p :: p in f.todo ==> forall todo :: todo in f.todo[p] ==> TodoPlanned(schedules, actions, todo)
  }

  lemma PlannedStays(schedules: seq<Schedule>, actions: seq<Action>, a: Action, f: Fleet)
    requires AllPlanned(schedules, actions, f)
    ensures AllPlanned(schedules, actions + [a], f)
  {
    forall tick | Planned(schedules, actions, tick) ensures Planned(schedules, actions + [a], tick) {
      var s, b :| s in schedules && b in actions && PlannedIn(s, b, tick);
      assert b in actions + [a];
    }
    forall p, todo | p in f.todo && todo in f.todo[p] ensures TodoPlanned(schedules, actions + [a], todo) {
      assert TodoPlanned(schedules, actions, todo);
    }
  }

  lemma TickTodoPlanned(schedules: seq<Schedule>, actions: seq<Action>, p: nat, now: int, todo: Todo)
    requires TickPass(p, now) in actions && todo in TickTodo(schedules, now)
    ensures TodoPlanned(schedules, actions, todo)
  {
    TickPassPlans(schedules, now, todo);
    var k :| 0 <= k < |schedules| && PlannedAtTick(schedules[k], now, todo);
    SameResidue(todo.tick.slot, todo.tick.slot - schedules[k].everyMs, 1, schedules[k].everyMs);
    assert PlannedIn(schedules[k], TickPass(p, now), todo.tick);
  }

  lemma BootTodoPlanned(schedules: seq<Schedule>, actions: seq<Action>, p: nat, now: int, todo: Todo)
    requires BootPass(p, now) in actions && todo in BootTodo(schedules, now)
    ensures TodoPlanned(schedules, actions, todo)
  {
    BootPassPlans(schedules, now, todo);
    var k :| 0 <= k < |schedules| && PlannedAtBoot(schedules[k], now, todo);
    if todo.OneSlot? { assert PlannedIn(schedules[k], BootPass(p, now), todo.tick); }
  }

  lemma CatchUpPlanned(schedules: seq<Schedule>, actions: seq<Action>, rows: seq<Tick>, s: Schedule, now: int,
      todo: Todo)
    requires WellFormed(schedules) && RowsOk(schedules, rows) && s in schedules
    requires TodoPlanned(schedules, actions, CatchUp(s, now)) && todo in Expand(rows, s, now)
    ensures TodoPlanned(schedules, actions, todo)
  {
    var p :| BootPass(p, now) in actions;
    var current := Aligned(now, s.everyMs);
    HoldsMeans(s, current, now);
    CatchUpPlans(rows, s, now, current, todo);
    var x := todo.tick.slot;
    SameGrid(current, x, s.everyMs);
    WithinCap(current, x, s.everyMs, s.maxCatchUpSlots);
    assert PlannedIn(s, BootPass(p, now), todo.tick);
  }

  /** Less than n steps below on the grid is at most n - 1. */
  lemma WithinCap(current: int, x: int, d: int, n: int)
    requires d > 0 && (current - x) % d == 0 && current - n * d < x
    ensures current + d <= x + n * d
  {
    var q := (current - x) / d;
    assert current - x == q * d;
    if q >= n {
      if q > n { Multiples(n, q, d); }
    } else {
      Multiples(q, n, d);
    }
  }

  lemma NewTodoPlanned(schedules: seq<Schedule>, actions: seq<Action>, f: Fleet, p: nat, todo: seq<Todo>)
    requires AllPlanned(schedules, actions, f)
    requires forall x :: x in todo ==> TodoPlanned(schedules, actions, x)
    ensures AllPlanned(schedules, actions, f.(todo := f.todo[p := todo]))
  {
  }

  lemma AdvancePlanned(schedules: seq<Schedule>, actions: seq<Action>, f: Fleet, p: nat)
    requires WellFormed(schedules) && FleetOk(schedules, f) && Busy(f, p) && AllPlanned(schedules, actions, f)
    ensures AllPlanned(schedules, actions, Advance(f, p))
  {
    var head, rest := f.todo[p][0], f.todo[p][1..];
    assert head in f.todo[p] && TodoOk(schedules, head) && TodoPlanned(schedules, actions, head);
    forall x | x in rest ensures TodoPlanned(schedules, actions, x) { assert x in f.todo[p]; }
    match head
    case OneSlot(tick) => NewTodoPlanned(schedules, actions, f, p, rest);
    case CatchUp(s, now) =>
      forall x | x in Expand(f.rows, s, now) ensures TodoPlanned(schedules, actions, x) {
        CatchUpPlanned(schedules, actions, f.rows, s, now, x);
      }
      NewTodoPlanned(schedules, actions, f, p, Expand(f.rows, s, now) + rest);
  }

  lemma StepPlanned(schedules: seq<Schedule>, actions: seq<Action>, f: Fleet, a: Action)
    requires WellFormed(schedules) && FleetOk(schedules, f) && AllPlanned(schedules, actions, f) && a in actions
    ensures AllPlanned(schedules, actions, Step(schedules, f, a))
  {
    match a
    case BootPass(p, now) =>
      forall x | x in BootTodo(schedules, now) ensures TodoPlanned(schedules, actions, x) {
        BootTodoPlanned(schedules, actions, p, now, x);
      }
      NewTodoPlanned(schedules, actions, f, p, BootTodo(schedules, now));
    case TickPass(p, now) =>
      forall x | x in TickTodo(schedules, now) ensures TodoPlanned(schedules, actions, x) {
        TickTodoPlanned(schedules, actions, p, now, x);
      }
      NewTodoPlanned(schedules, actions, f, p, TickTodo(schedules, now));
    case Proceed(p) => if Busy(f, p) { AdvancePlanned(schedules, actions, f, p); }
    case Break(p) =>
      if Busy(f, p) {
        var k := DropKindLeaves(f.todo[p], KindOf(f.todo[p][0]));
        NewTodoPlanned(schedules, actions, f, p, f.todo[p][k..]);
      }
  }

  lemma {:induction false} AlwaysPlanned(schedules: seq<Schedule>, actions: seq<Action>)
    requires WellFormed(schedules)
    ensures AllPlanned(schedules, actions, Run(schedules, actions))
  {
    if actions != [] {
      var before, a := actions[..|actions| - 1], actions[|actions| - 1];
      AlwaysPlanned(schedules, before);
      AlwaysOk(schedules, before);
      assert before + [a] == actions;
      PlannedStays(schedules, before, a, Run(schedules, before));
      StepPlanned(schedules, actions, Run(schedules, before), a);
    }
  }

  /** Nothing is attempted but what a pass of the run was due to attempt: grid slots no later than the one
      after its instant, and none older than its instant's but for the newest a catch-up's cap allows. */
  lemma AttemptsArePlanned(schedules: seq<Schedule>, actions: seq<Action>, k: int)
    requires WellFormed(schedules) && 0 <= k < |Run(schedules, actions).log|
    ensures var tick := Run(schedules, actions).log[k].tick;
      exists s, a :: s in schedules && a in actions && s.kind == tick.kind && tick.slot % s.everyMs == 0
        && ((a.TickPass? && tick.slot - s.everyMs <= a.now < tick.slot + s.everyMs)
            || (a.BootPass? && !s.catchUp && tick.slot <= a.now < tick.slot + s.everyMs)
            || (a.BootPass? && s.catchUp && tick.slot <= a.now < tick.slot + s.maxCatchUpSlots * s.everyMs))
  {
    AlwaysPlanned(schedules, actions);
    var tick := Run(schedules, actions).log[k].tick;
    var s, a :| s in schedules && a in actions && PlannedIn(s, a, tick);
  }

  // ---------------------------------------------------------------- what a pass completes

  /** The pass has still to attempt this slot. */
  ghost predicate Awaits(f: Fleet, p: nat, s: Schedule, x: int) {
    p in f.todo && exists todo :: todo in f.todo[p] && Reaches(todo, s, x)
  }

  predicate Reaches(todo: Todo, s: Schedule, x: int) {
    || todo == OneSlot(Tick(s.kind, x))
    || (todo.CatchUp? && todo.schedule == s && s.maxCatchUpSlots >= 1 && Holds(s, x, todo.now))
  }

  lemma AdvanceReaches(schedules: seq<Schedule>, f: Fleet, p: nat, q: nat, s: Schedule, x: int)
    requires WellFormed(schedules) && FleetOk(schedules, f) && Busy(f, q) && s in schedules
    requires Tick(s.kind, x) in f.rows || Awaits(f, p, s, x)
    ensures Tick(s.kind, x) in Advance(f, q).rows || Awaits(Advance(f, q), p, s, x)
  {
    var head, rest := f.todo[q][0], f.todo[q][1..];
    if head.OneSlot? { RecordedIsPresence(f.rows, head.tick); }
    if Awaits(f, p, s, x) && p == q {
      var todo :| todo in f.todo[p] && Reaches(todo, s, x);
      if todo in rest {
        assert todo in Advance(f, q).todo[p];
      } else {
        assert todo == head;
        if todo.CatchUp? {
          forall k | 0 <= k < |f.rows| && f.rows[k].kind == s.kind ensures f.rows[k].slot % s.everyMs == 0 {
            SameSchedule(schedules, s, f.rows[k]);
          }
          CurrentReached(f.rows, s, todo.now, x);
          assert OneSlot(Tick(s.kind, x)) in Advance(f, q).todo[p];
        }
      }
    }
  }

  /** A catch-up with a cap takes the slot that holds its instant. */
  lemma CurrentReached(rows: seq<Tick>, s: Schedule, now: int, x: int)
    requires s.maxCatchUpSlots >= 1 && Holds(s, x, now)
    requires forall k :: 0 <= k < |rows| && rows[k].kind == s.kind ==> rows[k].slot % s.everyMs == 0
    ensures OneSlot(Tick(s.kind, x)) in Expand(rows, s, now)
  {
    CatchUpPlans(rows, s, now, x, OneSlot(Tick(s.kind, x)));
    assert s.maxCatchUpSlots * s.everyMs >= s.everyMs;
  }

  lemma StepReaches(schedules: seq<Schedule>, f: Fleet, a: Action, p: nat, s: Schedule, x: int)
    requires WellFormed(schedules) && FleetOk(schedules, f) && s in schedules && a != Break(p)
    requires Tick(s.kind, x) in f.rows || Awaits(f, p, s, x)
    ensures Tick(s.kind, x) in Step(schedules, f, a).rows || Awaits(Step(schedules, f, a), p, s, x)
  {
    var g := Step(schedules, f, a);
    if a.Proceed? && Busy(f, a.pass) {
      AdvanceReaches(schedules, f, p, a.pass, s, x);
    } else if Awaits(f, p, s, x) {
      var todo :| todo in f.todo[p] && Reaches(todo, s, x);
      assert g.todo[p] == f.todo[p];
    }
  }

  lemma {:induction false} RunReaches(schedules: seq<Schedule>, before: seq<Action>, after: seq<Action>, p: nat,
      s: Schedule, x: int)
    requires WellFormed(schedules) && s in schedules && Break(p) !in after
    requires Awaits(Run(schedules, before), p, s, x)
    ensures var f := Run(schedules, before + after); Tick(s.kind, x) in f.rows || Awaits(f, p, s, x)
  {
    if after == [] {
      assert before + after == before;
    } else {
      var n := |after| - 1;
      RunReaches(schedules, before, after[..n], p, s, x);
      assert (before + after)[..|before + after| - 1] == before + after[..n];
      AlwaysOk(schedules, before + after[..n]);
      StepReaches(schedules, Run(schedules, before + after[..n]), after[n], p, s, x);
    }
  }

  /** A tick pass in which no call throws has, when it is done, the slot that holds its instant and the
      next one of every schedule in the store, whatever other passes do meanwhile. */
  lemma TickPassCompletes(schedules: seq<Schedule>, before: seq<Action>, after: seq<Action>, p: nat, now: int,
      s: Schedule, x: int)
    requires WellFormed(schedules) && s in schedules && Break(p) !in after
    requires !Busy(Run(schedules, before), p) && !Busy(Run(schedules, before + [TickPass(p, now)] + after), p)
    requires x % s.everyMs == 0 && (x <= now < x + s.everyMs || x - s.everyMs <= now < x)
    ensures Tick(s.kind, x) in Run(schedules, before + [TickPass(p, now)] + after).rows
  {
    var started, todo := before + [TickPass(p, now)], OneSlot(Tick(s.kind, x));
    assert started[..|started| - 1] == before;
    var k :| 0 <= k < |schedules| && schedules[k] == s;
    SameResidue(x, x - s.everyMs, 1, s.everyMs);
    assert PlannedAtTick(schedules[k], now, todo);
    TickPassPlans(schedules, now, todo);
    assert Reaches(todo, s, x);
    RunReaches(schedules, started, after, p, s, x);
  }

  /** A boot pass in which no call throws has, when it is done, the slot that holds its instant of every
      schedule that does not catch up or may catch up at all. */
  lemma BootPassCompletes(schedules: seq<Schedule>, before: seq<Action>, after: seq<Action>, p: nat, now: int,
      s: Schedule, x: int)
    requires WellFormed(schedules) && s in schedules && Break(p) !in after
    requires !Busy(Run(schedules, before), p) && !Busy(Run(schedules, before + [BootPass(p, now)] + after), p)
    requires x % s.everyMs == 0 && x <= now < x + s.everyMs && (s.catchUp ==> s.maxCatchUpSlots >= 1)
    ensures Tick(s.kind, x) in Run(schedules, before + [BootPass(p, now)] + after).rows
  {
    var started := before + [BootPass(p, now)];
    var todo := if s.catchUp then CatchUp(s, now) else OneSlot(Tick(s.kind, x));
    assert started[..|started| - 1] == before;
    var k :| 0 <= k < |schedules| && schedules[k] == s;
    assert PlannedAtBoot(schedules[k], now, todo);
    BootPassPlans(schedules, now, todo);
    assert Reaches(todo, s, x);
    RunReaches(schedules, started, after, p, s, x);
  }
}
