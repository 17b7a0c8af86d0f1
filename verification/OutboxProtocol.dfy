/** Drain cycles as protocol steps. */
module OutboxProtocol {
  import opened Options
  import opened BridgeTables
  import opened OutboxClaim
  import opened OutboxDrain
  import opened BridgeProtocol
  import opened DeliveryHandler

  lemma PublishIsProtocolStep(c: Config, s: State, e: Event, jobType: string)
    requires e.id !in s.t.events && (e.audit <==> e.pool.None? && e.direction.None?)
    ensures Step(c, s, Publish(e)) == s.(t := s.t.(events := s.t.events[e.id := EventRow(e, None)]))
    ensures Step(c, s, PublishAndStart(e, jobType)) == s.(t := EagerTx(c.reg, s.t, e, jobType))
  {
  }

  /** The drainer's clock is read before each stamp. */
  function DrainActions(d: nat, turns: seq<Turn>): seq<Action> {
    if turns == [] then []
    else [SetClock(d, turns[0].now)] + ([Drain(d, turns[0].commits)] + DrainActions(d, turns[1..]))
  }

  function BatchActions(d: nat, locked: set<Id>, rows: seq<Event>, turns: seq<Turn>): seq<Action> {
    [Claim(d, locked, rows)] + DrainActions(d, turns)
  }

  /** The clock readings never go back, from this one on. */
  predicate Ascending(now: int, turns: seq<Turn>) {
    turns != [] ==> now <= turns[0].now && forall j, k :: 0 <= j < k < |turns| ==> turns[j].now <= turns[k].now
  }

  lemma {:induction false} DrainAllFront(reg: Registry, t: Tables, turns: seq<Turn>)
    requires turns != []
    ensures var first := if turns[0].commits then DrainTx(reg, t, turns[0].event, turns[0].now) else t;
      DrainAll(reg, t, turns) == DrainAll(reg, first, turns[1..])
    decreases |turns|
  {
    var n := |turns| - 1;
    if n == 0 {
      assert turns[..0] == [];
    } else {
      DrainAllFront(reg, t, turns[..n]);
      assert turns[..n][1..] == turns[1..][..n - 1];
    }
  }

  lemma {:induction false} DrainsAreProtocolRun(c: Config, s: State, d: nat, turns: seq<Turn>)
    requires d in s.held && |s.held[d]| == |turns| && forall k :: 0 <= k < |turns| ==> s.held[d][k] == turns[k].event
    requires c.monotone ==> Ascending(ClockOf(s, d), turns)
    ensures var u := Continue(c, s, DrainActions(d, turns));
      u.t == DrainAll(c.reg, s.t, turns) && d in u.held && u.held[d] == []
    decreases |turns|
  {
    if turns != [] {
      var tail := DrainActions(d, turns[1..]);
      Next(c, s, SetClock(d, turns[0].now), [Drain(d, turns[0].commits)] + tail);
      var s1 := s.(clocks := s.clocks[d := turns[0].now]);
      Next(c, s1, Drain(d, turns[0].commits), tail);
      var s2 := AfterDrain(c, s1, d, turns[0].commits);
      DrainsAreProtocolRun(c, s2, d, turns[1..]);
      DrainAllFront(c.reg, s.t, turns);
    }
  }

  /** A drain cycle of the bus is a stretch of a protocol run: a claim, then for each row a reading of
      the drainer's clock and its transaction. */
  lemma BatchIsProtocolRun(c: Config, s: State, d: nat, locked: set<Id>, rows: seq<Event>, clock: nat -> int,
      commits: nat -> bool)
    requires !Holding(s, d) && IsClaim(s.t, PoolsOf(c, d), ClockOf(s, d), locked, rows)
    requires c.monotone ==> Ascending(ClockOf(s, d), TurnsOf(rows, clock, commits))
    ensures var turns := TurnsOf(rows, clock, commits);
      var u := Continue(c, s, BatchActions(d, locked, rows, turns));
      u.t == DrainAll(c.reg, s.t, turns) && d in u.held && u.held[d] == []
  {
    var turns := TurnsOf(rows, clock, commits);
    Next(c, s, Claim(d, locked, rows), DrainActions(d, turns));
    DrainsAreProtocolRun(c, s.(held := s.held[d := rows]), d, turns);
  }
}
