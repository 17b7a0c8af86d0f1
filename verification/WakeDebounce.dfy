/** Wakes that arrive during a drain cycle. */
module WakeDebounce {
  /** `loops` counts drainOnWake calls that have not returned, `cycles` the drain cycles begun. */
  datatype Wake = Wake(polling: bool, draining: bool, recheck: bool, loops: nat, cycles: nat)

  datatype Input =
    | Init
    | Destroy
    | Notify(payload: string)
    | CycleEnds
    | CycleThrows

  const STOPPED := Wake(false, false, false, 0, 0)

  predicate Owned(pools: seq<string>, payload: string) {
    pools == [] || payload in pools
  }

  function StartLoop(s: Wake): Wake {
    s.(draining := true, recheck := false, loops := s.loops + 1, cycles := s.cycles + 1)
  }

  function Step(pools: seq<string>, s: Wake, i: Input): Wake {
    match i
    case Init => s.(polling := true)
    case Destroy => s.(polling := false)
    case Notify(payload) =>
      if !s.polling || !Owned(pools, payload) then s
      else if s.draining then s.(recheck := true)
      else StartLoop(s)
    case CycleEnds =>
      if s.loops == 0 then s
      else if s.recheck && s.polling then s.(recheck := false, cycles := s.cycles + 1)
      else s.(draining := false, loops := s.loops - 1)
    case CycleThrows =>
      if s.loops == 0 then s else s.(draining := false, loops := s.loops - 1)
  }

  function Run(pools: seq<string>, s: Wake, inputs: seq<Input>): Wake
    decreases |inputs|
  {
    if inputs == [] then s else Step(pools, Run(pools, s, inputs[..|inputs| - 1]), inputs[|inputs| - 1])
  }

  /** The fields and the code between two awaits, as the event bus has them. */
  class WakeListener {
    const pools: seq<string>
    var polling: bool
    var wakeDraining: bool
    var wakeRecheckPending: bool
    var loops: nat
    var cycles: nat

    constructor (pools: seq<string>)
      ensures this.pools == pools && Value() == STOPPED
    {
      this.pools := pools;
      polling, wakeDraining, wakeRecheckPending := false, false, false;
      loops, cycles := 0, 0;
    }

    function Value(): Wake
      reads this
    {
      Wake(polling, wakeDraining, wakeRecheckPending, loops, cycles)
    }

    method OnModuleInit()
      modifies this
      ensures Value() == Step(pools, old(Value()), Init)
      ensures Value() == old(Value()).(polling := true)
    {
      polling := true;
    }

    method OnModuleDestroy()
      modifies this
      ensures Value() == Step(pools, old(Value()), Destroy)
      ensures Value() == old(Value()).(polling := false)
    {
      polling := false;
    }

    method OnWake(payload: string)
      modifies this
      ensures Value() == Step(pools, old(Value()), Notify(payload))
      ensures !old(polling) || (pools != [] && payload !in pools) ==> Value() == old(Value())
      ensures old(polling) && (pools == [] || payload in pools) ==>
        Value() == if old(wakeDraining) then old(Value()).(recheck := true)
                   else Wake(true, true, false, old(loops) + 1, old(cycles) + 1)
    {
      if !polling { return; }
      if pools != [] && payload !in pools { return; }
      if wakeDraining {
        wakeRecheckPending := true;
        return;
      }
      DrainOnWake();
    }

    /** drainOnWake up to its first await. */
    method DrainOnWake()
      modifies this
      ensures Value() == StartLoop(old(Value()))
    {
      loops := loops + 1;
      wakeDraining := true;
      BeginCycle();
    }

    method BeginCycle()
      modifies this
      ensures Value() == old(Value()).(recheck := false, cycles := old(cycles) + 1)
    {
      wakeRecheckPending := false;
      cycles := cycles + 1;
    }

    /** From the end of one cycle to the next await or the return. */
    method AfterCycle(threw: bool)
      requires loops > 0
      modifies this
      ensures Value() == Step(pools, old(Value()), if threw then CycleThrows else CycleEnds)
      ensures Value() == if !threw && old(wakeRecheckPending) && old(polling)
                         then old(Value()).(recheck := false, cycles := old(cycles) + 1)
                         else old(Value()).(draining := false, loops := old(loops) - 1)
    {
      if !threw && wakeRecheckPending && polling {
        BeginCycle();
      } else {
        wakeDraining := false;
        loops := loops - 1;
      }
    }
  }

  // ---------------------------------------------------------------- loops never overlap

  /** Whatever arrives in whatever order, at most one wake-driven loop is in flight, and the flag
      says whether one is. */
  lemma {:induction false} LoopsNeverOverlap(pools: seq<string>, inputs: seq<Input>)
    ensures var s := Run(pools, STOPPED, inputs); s.loops == (if s.draining then 1 else 0)
  {
    if inputs != [] { LoopsNeverOverlap(pools, inputs[..|inputs| - 1]); }
  }

  // ---------------------------------------------------------------- nothing is missed

  predicate Undisturbed(i: Input) {
    i.Notify? || i.CycleEnds? || i.Init?
  }

  ghost predicate Flagged(s: Wake) {
    s.loops == (if s.draining then 1 else 0)
  }

  /** An owned notification that finds the bus in state `s` while polling: as long as no cycle throws
      and polling stays on, either a cycle has begun since, or one is running with the recheck
      pending, and the moment that cycle ends the recheck turns into the next one. */
  lemma {:induction false} NotificationIsServed(pools: seq<string>, s: Wake, payload: string, later: seq<Input>)
    requires Flagged(s) && s.polling && (pools == [] || payload in pools)
    requires forall k :: 0 <= k < |later| ==> Undisturbed(later[k])
    ensures var u := Run(pools, Step(pools, s, Notify(payload)), later);
      && Flagged(u) && u.polling
      && (u.cycles > s.cycles || (u.draining && u.recheck && u.cycles == s.cycles))
      && (!u.draining ==> u.cycles > s.cycles)
      && (u.draining && u.recheck ==>
            var next := Step(pools, u, CycleEnds); next.cycles == u.cycles + 1 && next.draining && !next.recheck)
  {
    if later != [] {
      NotificationIsServed(pools, s, payload, later[..|later| - 1]);
    }
  }

  function Notifications(payloads: seq<string>): seq<Input> {
    seq(|payloads|, k requires 0 <= k < |payloads| => Notify(payloads[k]))
  }

  lemma {:induction false} BurstOnlyFlags(pools: seq<string>, s: Wake, payloads: seq<string>)
    requires s.polling && s.draining
    ensures Run(pools, s, Notifications(payloads)) ==
      s.(recheck := s.recheck || exists k :: 0 <= k < |payloads| && Owned(pools, payloads[k]))
  {
    if payloads != [] {
      var n := |payloads| - 1;
      BurstOnlyFlags(pools, s, payloads[..n]);
      assert Notifications(payloads)[..n] == Notifications(payloads[..n]);
      assert (exists k :: 0 <= k < |payloads| && Owned(pools, payloads[k])) <==>
             (exists k :: 0 <= k < n && Owned(pools, payloads[..n][k])) || Owned(pools, payloads[n]);
    }
  }

  /** A burst during one cycle causes exactly one further cycle if it held an owned notification and
      none otherwise; after that the bus is idle. */
  lemma BurstCausesOneCycle(pools: seq<string>, s: Wake, payloads: seq<string>)
    requires Flagged(s) && s.polling && s.draining && !s.recheck
    ensures var owned := exists k :: 0 <= k < |payloads| && (pools == [] || payloads[k] in pools);
      var ended := Step(pools, Run(pools, s, Notifications(payloads)), CycleEnds);
      && ended.cycles == s.cycles + (if owned then 1 else 0)
      && ended.draining == owned
      && var settled := Step(pools, ended, CycleEnds);
         !settled.draining && settled.cycles == ended.cycles
  {
    BurstOnlyFlags(pools, s, payloads);
    assert forall k :: 0 <= k < |payloads| ==> (Owned(pools, payloads[k]) <==> pools == [] || payloads[k] in pools);
  }

  // ---------------------------------------------------------------- the one way to miss a wake

  predicate Quiet(pools: seq<string>, i: Input) {
    i.Notify? ==> pools != [] && i.payload !in pools
  }

  lemma {:induction false} IdleStaysIdle(pools: seq<string>, s: Wake, later: seq<Input>)
    requires Flagged(s) && !s.draining && forall k :: 0 <= k < |later| ==> Quiet(pools, later[k])
    ensures var u := Run(pools, s, later); u.cycles == s.cycles && !u.draining && Flagged(u)
  {
    if later != [] { IdleStaysIdle(pools, s, later[..|later| - 1]); }
  }

  /** The end of a cycle with a recheck pending serves it exactly when the cycle did not throw and
      polling is still on; otherwise no later input but another owned notification begins a cycle. */
  lemma RecheckServedExactly(pools: seq<string>, s: Wake, threw: bool, later: seq<Input>)
    requires Flagged(s) && s.draining && s.recheck
    requires forall k :: 0 <= k < |later| ==> Quiet(pools, later[k])
    ensures var ended := Step(pools, s, if threw then CycleThrows else CycleEnds);
      && (ended.cycles == s.cycles + 1 <==> !threw && s.polling)
      && (threw || !s.polling ==> Run(pools, ended, later).cycles == s.cycles)
  {
    var ended := Step(pools, s, if threw then CycleThrows else CycleEnds);
    if threw || !s.polling { IdleStaysIdle(pools, ended, later); }
  }
}
