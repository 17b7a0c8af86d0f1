/** Callers that miss share one computation. */
module CacheStampede {
  /** A factory's promise: running, then resolved (value stored) or rejected, then its finally has run. */
  datatype Phase = Computing | Resolved | Rejected | Settled

  datatype Flight = Flight(key: string, phase: Phase)

  /** Flights are numbered in the order their factories were started. */
  datatype Flights = Flights(inflight: map<string, nat>, flights: seq<Flight>)

  const IDLE := Flights(map[], [])

  datatype Action =
    | Join(key: string)
    | Resolve(id: nat)
    | Reject(id: nat)
    | Settle(id: nat)

  predicate Enabled(s: Flights, a: Action) {
    match a
    case Join(_) => true
    case Resolve(id) => id < |s.flights| && s.flights[id].phase == Computing
    case Reject(id) => id < |s.flights| && s.flights[id].phase == Computing
    case Settle(id) => id < |s.flights| && (s.flights[id].phase == Resolved || s.flights[id].phase == Rejected)
  }

  /** The flight a caller that missed ends up waiting for. */
  function Joined(s: Flights, key: string): nat {
    if key in s.inflight then s.inflight[key] else |s.flights|
  }

  function Step(s: Flights, a: Action): Flights {
    if !Enabled(s, a) then s else
    match a
    case Join(key) =>
      if key in s.inflight then s
      else Flights(s.inflight[key := |s.flights|], s.flights + [Flight(key, Computing)])
    case Resolve(id) => s.(flights := s.flights[id := Flight(s.flights[id].key, Resolved)])
    case Reject(id) => s.(flights := s.flights[id := Flight(s.flights[id].key, Rejected)])
    case Settle(id) => Flights(s.inflight - {s.flights[id].key}, s.flights[id := Flight(s.flights[id].key, Settled)])
  }

  function Run(actions: seq<Action>): Flights {
    if actions == [] then IDLE else Step(Run(actions[..|actions| - 1]), actions[|actions| - 1])
  }

  /** The in-flight map names exactly the unsettled flights, each under its own key. */
  ghost predicate Tracked(s: Flights) {
    && (forall id :: 0 <= id < |s.flights| && s.flights[id].phase != Settled ==>
          s.flights[id].key in s.inflight && s.inflight[s.flights[id].key] == id)
    && (forall key :: key in s.inflight ==>
          s.inflight[key] < |s.flights| && s.flights[s.inflight[key]].key == key &&
            s.flights[s.inflight[key]].phase != Settled)
  }

  lemma StepKeeps(s: Flights, a: Action)
    requires Tracked(s)
    ensures Tracked(Step(s, a))
  {
  }

  lemma {:induction false} AlwaysTracked(actions: seq<Action>)
    ensures Tracked(Run(actions))
  {
    if actions != [] {
      AlwaysTracked(actions[..|actions| - 1]);
      StepKeeps(Run(actions[..|actions| - 1]), actions[|actions| - 1]);
    }
  }

  /** Never two computations of one key at a time. */
  lemma OneFactoryPerKey(actions: seq<Action>, i: nat, j: nat)
    requires var s := Run(actions);
      i < |s.flights| && j < |s.flights| && s.flights[i].phase != Settled && s.flights[j].phase != Settled
      && s.flights[i].key == s.flights[j].key
    ensures i == j
  {
    AlwaysTracked(actions);
  }

  function Continued(s: Flights, actions: seq<Action>): Flights {
    if actions == [] then s else Step(Continued(s, actions[..|actions| - 1]), actions[|actions| - 1])
  }

  /** Callers that missed the same key share one flight as long as it has not settled in between. */
  lemma {:induction false} MissesShare(s: Flights, key: string, actions: seq<Action>)
    requires Tracked(s)
    requires var id, after := Joined(s, key), Continued(Step(s, Join(key)), actions);
      id < |after.flights| ==> after.flights[id].phase != Settled
    ensures Joined(Continued(Step(s, Join(key)), actions), key) == Joined(s, key)
  {
    var id := Joined(s, key);
    StepKeeps(s, Join(key));
    FlightStays(Step(s, Join(key)), actions, id);
  }

  lemma {:induction false} FlightStays(s: Flights, actions: seq<Action>, id: nat)
    requires Tracked(s) && id < |s.flights|
    ensures var after := Continued(s, actions);
      Tracked(after) && id < |after.flights| && after.flights[id].key == s.flights[id].key
  {
    if actions != [] {
      var n := |actions| - 1;
      FlightStays(s, actions[..n], id);
      StepKeeps(Continued(s, actions[..n]), actions[n]);
    }
  }
}
