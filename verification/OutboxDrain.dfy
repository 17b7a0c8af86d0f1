/** The outbox drain, cycle by cycle. */
module OutboxDrain {
  import opened Options
  import opened BridgeTables
  import opened BridgeInvariant
  import opened BridgeDatabase
  import opened OutboxDrainHook
  import opened OutboxClaim
  import opened FiniteSets

  /** What happens to one claimed row: the clock at its stamp, and whether its transaction commits. */
  datatype Turn = Turn(event: Event, now: int, commits: bool)

  /** The tables after the turns, first to last. */
  function DrainAll(reg: Registry, t: Tables, turns: seq<Turn>): Tables {
    if turns == [] then t
    else
      var before := DrainAll(reg, t, turns[..|turns| - 1]);
      var turn := turns[|turns| - 1];
      if turn.commits then DrainTx(reg, before, turn.event, turn.now) else before
  }

  /** Events whose transaction committed, in order: those the subscribers then see. */
  function Dispatched(turns: seq<Turn>): seq<Event> {
    if turns == [] then []
    else
      var before := Dispatched(turns[..|turns| - 1]);
      if turns[|turns| - 1].commits then before + [turns[|turns| - 1].event] else before
  }

  lemma OneTurnOn(reg: Registry, t: Tables, turns: seq<Turn>, k: nat)
    requires k < |turns|
    ensures var before := DrainAll(reg, t, turns[..k]);
      DrainAll(reg, t, turns[..k + 1]) ==
        if turns[k].commits then DrainTx(reg, before, turns[k].event, turns[k].now) else before
    ensures Dispatched(turns[..k + 1]) == Dispatched(turns[..k]) + (if turns[k].commits then [turns[k].event] else [])
  {
    assert turns[..k + 1][..k] == turns[..k];
  }

  class DrizzleEventBus {
    const hook: BridgeOutboxDrainHook
    var dispatched: seq<Event>

    constructor (hook: BridgeOutboxDrainHook)
      ensures this.hook == hook && dispatched == []
    {
      this.hook := hook;
      dispatched := [];
    }

    /** One per-event transaction: fan-out and stamp, or neither. */
    method EventTransaction(db: Database, turn: Turn) returns (committed: bool)
      requires db.Valid() && turn.event.id in db.t.events
      modifies hook, db
      ensures db.Valid() && committed == turn.commits
      ensures db.t == if turn.commits then DrainTx(hook.registry, old(db.t), turn.event, turn.now) else old(db.t)
      ensures db.t.events.Keys == old(db.t.events.Keys)
    {
      DrainTxEvents(hook.registry, db.t, turn.event, turn.now);
      var snapshot := db.t;
      var r := hook.ProcessEvent(turn.event, db);
      db.StampProcessed(turn.event.id, turn.now);
      if !turn.commits { db.Rollback(snapshot); }
      committed := turn.commits;
    }

    /** One drain cycle: claim, then a transaction per row. `locked` are the rows others have locked at
        the claim; `clock` and `commits` give the clock at the k-th stamp and the fate of the k-th
        transaction. */
    method ProcessBatch(db: Database, pools: seq<string>, now: int, locked: set<Id>, clock: nat -> int,
        commits: nat -> bool)
      returns (rows: seq<Event>)
      requires db.Valid() && EventsKeyed(db.t)
      modifies this, hook, db
      ensures db.Valid() && IsClaim(old(db.t), pools, now, locked, rows)
      ensures db.t == DrainAll(hook.registry, old(db.t), TurnsOf(rows, clock, commits))
      ensures dispatched == old(dispatched) + Dispatched(TurnsOf(rows, clock, commits))
      ensures forall k :: 0 <= k < |rows| ==>
        rows[k].id in db.t.events
        && db.t.events[rows[k].id] == EventRow(rows[k], if commits(k) then Some(clock(k)) else None)
      ensures db.t.events.Keys == old(db.t).events.Keys
      ensures forall id :: id in db.t.events && (forall k :: 0 <= k < |rows| ==> rows[k].id != id) ==>
        db.t.events[id] == old(db.t).events[id]
    {
      rows := db.SelectReady(pools, now, locked);
      ghost var before := db.t;
      DrainRows(db, rows, clock, commits);
      ClaimedPending(before, pools, now, locked, rows);
      EachRowStamped(hook.registry, before, rows, clock, commits, |rows|);
      assert TurnsOf(rows, clock, commits)[..|rows|] == TurnsOf(rows, clock, commits);
    }

    /** The loop over the claimed rows. */
    method DrainRows(db: Database, rows: seq<Event>, clock: nat -> int, commits: nat -> bool)
      requires db.Valid() && forall k :: 0 <= k < |rows| ==> rows[k].id in db.t.events
      modifies this, hook, db
      ensures db.Valid()
      ensures db.t == DrainAll(hook.registry, old(db.t), TurnsOf(rows, clock, commits))
      ensures dispatched == old(dispatched) + Dispatched(TurnsOf(rows, clock, commits))
    {
      ghost var t0, turns := db.t, TurnsOf(rows, clock, commits);
      for k := 0 to |rows|
        invariant db.Valid() && db.t.events.Keys == t0.events.Keys
        invariant db.t == DrainAll(hook.registry, t0, turns[..k])
        invariant dispatched == old(dispatched) + Dispatched(turns[..k])
      {
        var turn := Turn(rows[k], clock(k), commits(k));
        assert turns[k] == turn;
        OneTurnOn(hook.registry, t0, turns, k);
        var committed := EventTransaction(db, turn);
        if committed { dispatched := dispatched + [turn.event]; }
      }
      assert turns[..|turns|] == turns;
    }
  }

  function TurnsOf(rows: seq<Event>, clock: nat -> int, commits: nat -> bool): seq<Turn> {
    seq(|rows|, k requires 0 <= k < |rows| => Turn(rows[k], clock(k), commits(k)))
  }

  // ---------------------------------------------------------------- what a batch does to the outbox

  /** A drain transaction stamps its own row, if still pending, and no other. */
  lemma DrainTxEvents(reg: Registry, t: Tables, e: Event, now: int)
    requires FreshIds(t)
    ensures var u := DrainTx(reg, t, e, now);
      && FreshIds(u) && u.events.Keys == t.events.Keys
      && forall id :: id in t.events ==>
           u.events[id] == if id == e.id && t.events[id].Pending() then t.events[id].(processedAt := Some(now))
                            else t.events[id]
  {
    if Routable(e) { FanOutFresh(t, e, WrapperPool(e.direction).value, TriggersOf(reg, e.kind)); }
  }

  /** Distinct pending rows of the table. */
  ghost predicate PendingRows(t: Tables, rows: seq<Event>) {
    && (forall k :: 0 <= k < |rows| ==> rows[k].id in t.events && t.events[rows[k].id] == EventRow(rows[k], None))
    && (forall j, k :: 0 <= j < k < |rows| ==> rows[j].id != rows[k].id)
  }

  lemma ClaimedPending(t: Tables, pools: seq<string>, now: int, locked: set<Id>, rows: seq<Event>)
    requires IsClaim(t, pools, now, locked, rows)
    ensures PendingRows(t, rows)
  {
  }

  /** Each of the first n rows is stamped with its clock if its transaction committed, and every other
      row of the table is as it was. */
  ghost predicate StampedUpTo(t: Tables, u: Tables, rows: seq<Event>, clock: nat -> int, commits: nat -> bool, n: nat) {
    && FreshIds(u) && u.events.Keys == t.events.Keys
    && (forall k :: 0 <= k < |rows| && rows[k].id in u.events ==>
          u.events[rows[k].id] == EventRow(rows[k], if k < n && commits(k) then Some(clock(k)) else None))
    && (forall id :: id in t.events && (forall k :: 0 <= k < |rows| ==> rows[k].id != id) ==>
          u.events[id] == t.events[id])
  }

  lemma OneRowStamped(reg: Registry, t: Tables, b: Tables, rows: seq<Event>, clock: nat -> int,
      commits: nat -> bool, n: nat)
    requires PendingRows(t, rows) && n < |rows| && StampedUpTo(t, b, rows, clock, commits, n) && commits(n)
    ensures StampedUpTo(t, DrainTx(reg, b, rows[n], clock(n)), rows, clock, commits, n + 1)
  {
    DrainTxEvents(reg, b, rows[n], clock(n));
  }

  lemma {:induction false} EachRowStamped(reg: Registry, t: Tables, rows: seq<Event>, clock: nat -> int,
      commits: nat -> bool, n: nat)
    requires FreshIds(t) && PendingRows(t, rows) && n <= |rows|
    ensures StampedUpTo(t, DrainAll(reg, t, TurnsOf(rows, clock, commits)[..n]), rows, clock, commits, n)
  {
    if n > 0 {
      var turns := TurnsOf(rows, clock, commits);
      EachRowStamped(reg, t, rows, clock, commits, n - 1);
      OneTurnOn(reg, t, turns, n - 1);
      if commits(n - 1) {
        OneRowStamped(reg, t, DrainAll(reg, t, turns[..n - 1]), rows, clock, commits, n - 1);
      }
    }
  }

  /** Dispatched are exactly the rows whose transactions committed, in claim order. */
  lemma {:induction false} DispatchedExactly(rows: seq<Event>, clock: nat -> int, commits: nat -> bool, n: nat)
      returns (at: seq<nat>)
    requires n <= |rows|
    ensures var out := Dispatched(TurnsOf(rows, clock, commits)[..n]);
      |out| == |at| && (forall i :: 0 <= i < |at| ==> at[i] < n && out[i] == rows[at[i]])
    ensures forall i, j :: 0 <= i < j < |at| ==> at[i] < at[j]
    ensures forall k :: 0 <= k < n ==> (commits(k) <==> k in at)
  {
    at := [];
    if n > 0 {
      at := DispatchedExactly(rows, clock, commits, n - 1);
      var reg: Registry := map[];
      OneTurnOn(reg, EMPTY, TurnsOf(rows, clock, commits), n - 1);
      if commits(n - 1) { at := at + [n - 1]; }
    }
  }

  ghost predicate Commits(turns: seq<Turn>, id: Id) {
    exists k :: 0 <= k < |turns| && turns[k].commits && turns[k].event.id == id
  }

  /** After a batch a row is pending exactly if it was and none of its transactions committed; a
      failed transaction therefore leaves its row to the next cycle. */
  lemma {:induction false} BatchStamps(reg: Registry, t: Tables, turns: seq<Turn>)
    requires FreshIds(t)
    ensures var u := DrainAll(reg, t, turns);
      && FreshIds(u) && u.events.Keys == t.events.Keys
      && forall id :: id in t.events ==>
           u.events[id].event == t.events[id].event &&
             (u.events[id].Pending() <==> t.events[id].Pending() && !Commits(turns, id))
  {
    if turns != [] {
      var n := |turns| - 1;
      BatchStamps(reg, t, turns[..n]);
      var b := DrainAll(reg, t, turns[..n]);
      DrainTxEvents(reg, b, turns[n].event, turns[n].now);
      forall id ensures Commits(turns, id) <==>
        Commits(turns[..n], id) || (turns[n].commits && turns[n].event.id == id) {
        if Commits(turns, id) {
          var k :| 0 <= k < |turns| && turns[k].commits && turns[k].event.id == id;
          assert k < n ==> turns[..n][k] == turns[k];
        }
        if Commits(turns[..n], id) {
          var k :| 0 <= k < n && turns[..n][k].commits && turns[..n][k].event.id == id;
          assert turns[k].commits && turns[k].event.id == id;
        }
      }
    }
  }

  // ---------------------------------------------------------------- ceil(n / 50) cycles

  function Backlog(t: Tables, pools: seq<string>, now: int): set<Id> {
    set id | id in t.events && Ready(t, pools, now, id)
  }

  function AllCommit(rows: seq<Event>, now: int): seq<Turn> {
    TurnsOf(rows, k => now, k => true)
  }

  function Ids(rows: seq<Event>): set<Id> {
    set k | 0 <= k < |rows| :: rows[k].id
  }

  lemma {:induction false} DistinctIds(rows: seq<Event>)
    requires forall j, k :: 0 <= j < k < |rows| ==> rows[j].id != rows[k].id
    ensures |Ids(rows)| == |rows|
  {
    if rows != [] {
      var n := |rows| - 1;
      DistinctIds(rows[..n]);
      assert Ids(rows) == Ids(rows[..n]) + {rows[n].id};
    }
  }

  lemma ClaimTakesOldest(t: Tables, pools: seq<string>, now: int, rows: seq<Event>)
    requires IsClaim(t, pools, now, {}, rows)
    ensures Ids(rows) <= Backlog(t, pools, now)
    ensures |rows| == if |Backlog(t, pools, now)| < POLL_BATCH_SIZE then |Backlog(t, pools, now)| else POLL_BATCH_SIZE
    ensures forall k, id :: 0 <= k < |rows| && id in Backlog(t, pools, now) - Ids(rows) ==>
      rows[k].occurredAt <= t.events[id].event.occurredAt
  {
    var all := Backlog(t, pools, now);
    DistinctIds(rows);
    forall id | id in all && id !in Ids(rows)
      ensures |rows| == POLL_BATCH_SIZE
      ensures forall k :: 0 <= k < |rows| ==> rows[k].occurredAt <= t.events[id].event.occurredAt
    {
      assert !Claims(rows, id);
    }
    if all <= Ids(rows) { assert all == Ids(rows); }
    else { SubsetSize(Ids(rows), all); }
  }

  /** One failure-free cycle removes exactly its claimed rows from the backlog. */
  lemma CycleShrinksBacklog(reg: Registry, t: Tables, pools: seq<string>, now: int, rows: seq<Event>)
    requires FreshIds(t) && IsClaim(t, pools, now, {}, rows)
    ensures var u := DrainAll(reg, t, AllCommit(rows, now));
      && FreshIds(u) && u.events.Keys == t.events.Keys
      && (forall id :: id in t.events ==> u.events[id].event == t.events[id].event)
      && Backlog(u, pools, now) == Backlog(t, pools, now) - Ids(rows)
  {
    var turns := AllCommit(rows, now);
    BatchStamps(reg, t, turns);
    forall id ensures Commits(turns, id) <==> id in Ids(rows) {
      if id in Ids(rows) {
        var k :| 0 <= k < |rows| && rows[k].id == id;
        assert turns[k].commits && turns[k].event.id == id;
      }
    }
  }

  /** Consecutive failure-free cycles of a single drainer with nothing new becoming ready. */
  ghost predicate Cycles(reg: Registry, t: Tables, pools: seq<string>, now: int, claims: seq<seq<Event>>)
    decreases |claims|
  {
    claims == [] || (IsClaim(t, pools, now, {}, claims[0])
                     && Cycles(reg, DrainAll(reg, t, AllCommit(claims[0], now)), pools, now, claims[1..]))
  }

  function Concat(claims: seq<seq<Event>>): seq<Event> {
    if claims == [] then [] else claims[0] + Concat(claims[1..])
  }

  ghost predicate Oldest(rows: seq<Event>, t: Tables, backlog: set<Id>)
    requires backlog <= t.events.Keys
  {
    forall k, id :: 0 <= k < |rows| && id in backlog ==> rows[k].occurredAt <= t.events[id].event.occurredAt
  }

  ghost predicate InOrder(rows: seq<Event>) {
    forall j, k :: 0 <= j < k < |rows| ==> rows[j].id != rows[k].id && rows[j].occurredAt <= rows[k].occurredAt
  }

  ghost predicate RowsOf(t: Tables, rows: seq<Event>) {
    forall k :: 0 <= k < |rows| ==> rows[k].id in t.events && t.events[rows[k].id].event == rows[k]
  }

  lemma OrderedConcat(a: seq<Event>, b: seq<Event>, t: Tables, rest: set<Id>)
    requires InOrder(a) && InOrder(b) && rest <= t.events.Keys && Oldest(a, t, rest)
    requires Ids(a) !! rest && Ids(b) <= rest
    requires RowsOf(t, b)
    ensures InOrder(a + b) && Ids(a + b) == Ids(a) + Ids(b)
  {
    forall j, k | 0 <= j < |a| && 0 <= k < |b| ensures a[j].id != b[k].id && a[j].occurredAt <= b[k].occurredAt {
      assert a[j].id in Ids(a) && b[k].id in Ids(b);
    }
    forall id ensures id in Ids(a + b) <==> id in Ids(a) || id in Ids(b) {
      if id in Ids(a) { var j :| 0 <= j < |a| && a[j].id == id; assert (a + b)[j].id == id; }
      if id in Ids(b) { var k :| 0 <= k < |b| && b[k].id == id; assert (a + b)[|a| + k].id == id; }
    }
  }

  function Min(a: nat, b: nat): nat { if a < b then a else b }

  lemma ClaimedRows(t: Tables, pools: seq<string>, now: int, rows: seq<Event>)
    requires IsClaim(t, pools, now, {}, rows)
    ensures var all := Backlog(t, pools, now);
      && Ids(rows) <= all && |all - Ids(rows)| == |all| - |rows| && |rows| == Min(|all|, POLL_BATCH_SIZE)
      && InOrder(rows) && RowsOf(t, rows) && Oldest(rows, t, all - Ids(rows))
  {
    ClaimTakesOldest(t, pools, now, rows);
    DistinctIds(rows);
  }

  lemma JoinRows(t: Tables, all: set<Id>, rows: seq<Event>, rest: seq<Event>)
    requires all <= t.events.Keys && RowsOf(t, rows) && RowsOf(t, rest) && InOrder(rows) && InOrder(rest)
    requires Ids(rows) <= all && Oldest(rows, t, all - Ids(rows)) && Ids(rest) <= all - Ids(rows)
    ensures InOrder(rows + rest) && Ids(rows + rest) <= all && RowsOf(t, rows + rest)
  {
    OrderedConcat(rows, rest, t, all - Ids(rows));
  }

  lemma RowsBack(t: Tables, u: Tables, rows: seq<Event>)
    requires u.events.Keys == t.events.Keys &&
      (forall id :: id in t.events ==> u.events[id].event == t.events[id].event)
    requires RowsOf(u, rows)
    ensures RowsOf(t, rows)
  {
  }

  /** First cycle, then the rest: what the induction step of DrainsInOrder combines. */
  lemma FirstCycle(reg: Registry, t: Tables, pools: seq<string>, now: int, rows: seq<Event>, rest: seq<Event>)
    requires FreshIds(t) && IsClaim(t, pools, now, {}, rows)
    requires var u := DrainAll(reg, t, AllCommit(rows, now));
      InOrder(rest) && Ids(rest) <= Backlog(u, pools, now) && RowsOf(u, rest)
    ensures InOrder(rows + rest) && Ids(rows + rest) <= Backlog(t, pools, now) && RowsOf(t, rows + rest)
    ensures |Backlog(DrainAll(reg, t, AllCommit(rows, now)), pools, now)| == |Backlog(t, pools, now)| - |rows|
    ensures |rows| == Min(|Backlog(t, pools, now)|, POLL_BATCH_SIZE)
  {
    ClaimedRows(t, pools, now, rows);
    CycleShrinksBacklog(reg, t, pools, now, rows);
    RowsBack(t, DrainAll(reg, t, AllCommit(rows, now)), rest);
    JoinRows(t, Backlog(t, pools, now), rows, rest);
  }

  lemma {:induction false} CyclesDrain(reg: Registry, t: Tables, pools: seq<string>, now: int, claims: seq<seq<Event>>)
    requires FreshIds(t) && Cycles(reg, t, pools, now, claims)
    ensures InOrder(Concat(claims)) && Ids(Concat(claims)) <= Backlog(t, pools, now) && RowsOf(t, Concat(claims))
    ensures |Concat(claims)| == Min(|Backlog(t, pools, now)|, POLL_BATCH_SIZE * |claims|)
    decreases |claims|
  {
    if claims != [] {
      var u := DrainAll(reg, t, AllCommit(claims[0], now));
      BatchStamps(reg, t, AllCommit(claims[0], now));
      CyclesDrain(reg, u, pools, now, claims[1..]);
      FirstCycle(reg, t, pools, now, claims[0], Concat(claims[1..]));
    }
  }

  /** k failure-free cycles process min(n, 50k) of the n ready rows, oldest first, each once; so the
      backlog is empty exactly from the ceil(n/50)-th cycle on. */
  lemma DrainsInOrder(reg: Registry, t: Tables, pools: seq<string>, now: int, claims: seq<seq<Event>>)
    requires FreshIds(t) && Cycles(reg, t, pools, now, claims)
    ensures var done := Concat(claims); var n := |Backlog(t, pools, now)|;
      && InOrder(done) && RowsOf(t, done)
      && |done| == Min(n, POLL_BATCH_SIZE * |claims|)
      && (Ids(done) == Backlog(t, pools, now) <==> n <= POLL_BATCH_SIZE * |claims|)
  {
    var all := Backlog(t, pools, now);
    CyclesDrain(reg, t, pools, now, claims);
    DistinctIds(Concat(claims));
    if Ids(Concat(claims)) != all { SubsetSize(Ids(Concat(claims)), all); }
  }
}
