/** The invariant over all runs. */
module BridgeRuns {
  import opened BridgeTables
  import opened OutboxClaim
  import opened BridgeProtocol

  lemma StartInv(c: Config)
    ensures Inv(c, START)
  {
    assert forall id, trig: string :: !Taken(EMPTY, id, trig);
  }

  lemma SetClockKeeps(c: Config, s: State, d: nat, now: int)
    requires Inv(c, s) && (c.monotone ==> ClockOf(s, d) <= now)
    ensures Inv(c, s.(clocks := s.clocks[d := now]))
  {
    SameHandlers(c, s, s.(clocks := s.clocks[d := now]));
  }

  lemma TakeKeeps(c: Config, s: State, d: nat, locked: set<Id>, rows: seq<Event>)
    requires Inv(c, s) && IsClaim(s.t, PoolsOf(c, d), ClockOf(s, d), locked, rows)
    ensures Inv(c, s.(held := s.held[d := rows]))
  {
    ClaimKeeps(c, s, d, locked, rows);
    SameHandlers(c, s, s.(held := s.held[d := rows]));
  }

  lemma AbandonKeeps(c: Config, s: State, d: nat)
    requires Inv(c, s)
    ensures Inv(c, s.(held := s.held[d := []]))
  {
    SameHandlers(c, s, s.(held := s.held[d := []]));
  }

  lemma DrainerStepKeeps(c: Config, s: State, a: Action)
    requires Inv(c, s) && Enabled(c, s, a)
    requires a.SetClock? || a.Publish? || a.PublishAndStart? || a.Claim? || a.Drain? || a.Abandon?
    ensures Inv(c, Apply(c, s, a))
  {
    match a
    case SetClock(d, now) => SetClockKeeps(c, s, d, now);
    case Publish(e) => PublishKeeps(c, s, e);
    case PublishAndStart(e, job) => PublishAndStartKeeps(c, s, e, job);
    case Claim(d, locked, rows) => TakeKeeps(c, s, d, locked, rows);
    case Drain(d, commits) => DrainKeeps(c, s, d, commits);
    case Abandon(d) => AbandonKeeps(c, s, d);
  }

  lemma ReadStepKeeps(c: Config, s: State, a: Action)
    requires Inv(c, s) && Enabled(c, s, a)
    requires a.Begin? || a.Load? || a.FindStep? || a.Fail?
    ensures Inv(c, Apply(c, s, a))
  {
    match a
    case Begin(w, wrapper) => BeginKeeps(c, s, w, wrapper);
    case Load(w) => LoadKeeps(c, s, w);
    case FindStep(w) => FindStepKeeps(c, s, w);
    case Fail(w) => FailKeeps(c, s, w);
  }

  lemma WriteStepKeeps(c: Config, s: State, a: Action)
    requires Inv(c, s) && Enabled(c, s, a)
    requires a.Skip? || a.Spawn? || a.Record? || a.Mark?
    ensures Inv(c, Apply(c, s, a))
  {
    match a
    case Skip(w) => SkipKeeps(c, s, w);
    case Spawn(w) => SpawnActionKeeps(c, s, w);
    case Record(w) => RecordKeeps(c, s, w);
    case Mark(w) => MarkKeeps(c, s, w);
  }

  lemma StepKeeps(c: Config, s: State, a: Action)
    requires Inv(c, s)
    ensures Inv(c, Step(c, s, a))
  {
    if Enabled(c, s, a) {
      if a.Begin? || a.Load? || a.FindStep? || a.Fail? { ReadStepKeeps(c, s, a); }
      else if a.Skip? || a.Spawn? || a.Record? || a.Mark? { WriteStepKeeps(c, s, a); }
      else { DrainerStepKeeps(c, s, a); }
    }
  }

  /** The invariant holds after every sequence of actions, whatever the interleaving. */
  lemma {:induction false} AlwaysInv(c: Config, actions: seq<Action>)
    ensures Inv(c, Run(c, actions))
  {
    if actions == [] {
      StartInv(c);
    } else {
      AlwaysInv(c, actions[..|actions| - 1]);
      StepKeeps(c, Run(c, actions[..|actions| - 1]), actions[|actions| - 1]);
    }
  }
}
