/** Which pools, over every interleaving, can be used up. */
module PoolExhaustion {
  import opened Tally
  import opened Transitions
  import opened PoolMachine
  import opened PoolEffects
  import opened PoolInvariants
  import opened PoolTheorems
  import opened PoolOperations
  import opened PoolRelease
  import opened PoolCap
  import opened PoolExhaustionRuns

  // ---------------------------------------------------------------- how far the counter drifts

  /** How many connections are in the deque, at least, when one gets lost without being counted out. */
  function Rest(cfg: Config, calls: Calls): nat {
    if calls.clean && cfg.idleTimeout > 0 then 1 else cfg.maxIdle
  }

  function NotCleaning(): Pc -> bool {
    (pc: Pc) => !InClean(pc)
  }

  ghost predicate DriftInv(cfg: Config, calls: Calls, s: State) {
    && Inv(cfg, s) && (calls.clean || Everyone(s.pcs, NotCleaning()))
    && (s.closed || s.drift == 0 || s.drift + Rest(cfg, calls) <= Capacity(cfg))
  }

  ghost predicate OutsideClean(e: Effect) {
    !InClean(e.pc) && (e.wake.WakeUp? ==> !InClean(e.wake.pc))
  }

  lemma GetOutsideClean(cfg: Config, s: State, p: nat, env: Env)
    requires p < |s.pcs| && InGet(s.pcs[p])
    ensures OutsideClean(GetSection(cfg, s, p, env))
  {
  }

  lemma PutOutsideClean(cfg: Config, s: State, p: nat, env: Env)
    requires p < |s.pcs| && InPut(s.pcs[p])
    ensures OutsideClean(PutSection(cfg, s, p, env))
  {
  }

  lemma NotCleaningEffect(cfg: Config, calls: Calls, s: State, m: Move)
    requires Enabled(s, m) && Allowed(calls, m) && !calls.clean && !InClean(s.pcs[m.p])
    ensures OutsideClean(EffectOf(cfg, s, m))
  {
    if m.action.Run? {
      if InGet(s.pcs[m.p]) {
        GetOutsideClean(cfg, s, m.p, m.action.env);
      } else if InPut(s.pcs[m.p]) {
        PutOutsideClean(cfg, s, m.p, m.action.env);
      }
    }
  }

  /** A section that loses a connection leaves this many in the deque. */
  lemma DriftsBeside(cfg: Config, calls: Calls, s: State, m: Move)
    requires Enabled(s, m) && Allowed(calls, m) && !calls.cancel && cfg.maxIdle >= 1
    requires Drifts(cfg, s, m) && (calls.clean || !InClean(s.pcs[m.p]))
    ensures EffectOf(cfg, s, m).idle.KeepIdle? && Rest(cfg, calls) <= |s.idle|
  {
  }

  lemma DriftStep(cfg: Config, calls: Calls, s: State, m: Move)
    requires DriftInv(cfg, calls, s) && !calls.cancel && cfg.maxIdle >= 1 && Enabled(s, m) && Allowed(calls, m)
    ensures DriftInv(cfg, calls, Step(cfg, s, m))
  {
    var e, s' := EffectOf(cfg, s, m), Step(cfg, s, m);
    InvStep(cfg, s, m);
    if !calls.clean {
      assert NotCleaning()(s.pcs[m.p]);
      NotCleaningEffect(cfg, calls, s, m);
      EveryoneStep(s, m.p, e, Clock(s, m), NotCleaning());
    }
    DriftBounded(cfg, calls, s, m);
  }

  lemma DriftBounded(cfg: Config, calls: Calls, s: State, m: Move)
    requires DriftInv(cfg, calls, s) && !calls.cancel && cfg.maxIdle >= 1 && Enabled(s, m) && Allowed(calls, m)
    ensures var s' := Step(cfg, s, m); s'.closed || s'.drift == 0 || s'.drift + Rest(cfg, calls) <= Capacity(cfg)
  {
    var e, s' := EffectOf(cfg, s, m), Step(cfg, s, m);
    InvStep(cfg, s, m);
    DriftOnlyGrows(cfg, s, m);
    HoldsLocks(s, m.p);
    MoveLawful(cfg, s, m);
    assert s'.drift == e.drift;
    if e.drift > s.drift && !s'.closed {
      assert !calls.clean ==> NotCleaning()(s.pcs[m.p]);
      DriftsBeside(cfg, calls, s, m);
      assert s'.idle == s.idle;
    }
  }

  lemma DriftReachable(cfg: Config, calls: Calls, s: State)
    requires ReachableBy(cfg, calls, s) && !calls.cancel && cfg.maxIdle >= 1
    ensures DriftInv(cfg, calls, s)
  {
    var s0 :| Init(cfg, s0) && Leads(Next(cfg, calls), s0, s);
    InvInit(cfg, s0);
    forall t, m | DriftInv(cfg, calls, t) && Next(cfg, calls)(t, m).Some?
      ensures DriftInv(cfg, calls, Next(cfg, calls)(t, m).value)
    {
      DriftStep(cfg, calls, t, m);
    }
    InvariantHolds(Next(cfg, calls), (t: State) => DriftInv(cfg, calls, t), s0, s);
  }

  // ---------------------------------------------------------------- that one connection is left

  function ConnWeight(pc: Pc): nat {
    if HasConn(pc) then 1 else 0
  }

  function Alive(s: State): nat {
    |s.idle| + Sum(s.pcs, ConnWeight)
  }

  ghost predicate SomeLeft(cfg: Config, s: State) {
    Inv(cfg, s) && NoneGone(s.reqs) && (s.closed || Alive(s) >= 1)
  }

  /** Where nothing is thrown away, a section that lets go of a connection leaves others in the deque. */
  ghost predicate KeepsOne(s: State, p: nat, e: Effect)
    requires p < |s.pcs|
  {
    || (e.idle.KeepIdle? && s.idle != [])
    || IdleGain(e.idle) + ConnWeight(e.pc) - ConnWeight(s.pcs[p])
         + (if e.wake.WakeUp? then ConnWeight(e.wake.pc) else 0) >= 0
  }

  lemma GetKeeps(cfg: Config, s: State, p: nat, env: Env)
    requires p < |s.pcs| && InGet(s.pcs[p]) && !Evicts(cfg)
    ensures KeepsOne(s, p, GetSection(cfg, s, p, env))
  {
  }

  lemma PutKeeps(cfg: Config, s: State, p: nat, env: Env)
    requires p < |s.pcs| && InPut(s.pcs[p]) && !Evicts(cfg) && cfg.maxIdle >= 1 && !s.closed && NoneGone(s.reqs)
    ensures KeepsOne(s, p, PutSection(cfg, s, p, env))
  {
  }

  lemma CleanKeepsAll(cfg: Config, s: State, p: nat, env: Env)
    requires p < |s.pcs| && InClean(s.pcs[p]) && IndicesOk(s, p) && !Evicts(cfg)
    ensures KeepsOne(s, p, CleanSection(cfg, s, p, env))
  {
  }

  lemma MoveKeeps(cfg: Config, calls: Calls, s: State, m: Move)
    requires Enabled(s, m) && Allowed(calls, m) && !calls.cancel && !Evicts(cfg) && cfg.maxIdle >= 1
    requires !s.closed && NoneGone(s.reqs) && !InRelease(s.pcs[m.p])
    ensures KeepsOne(s, m.p, EffectOf(cfg, s, m))
  {
    if m.action.Run? {
      if InGet(s.pcs[m.p]) {
        GetKeeps(cfg, s, m.p, m.action.env);
      } else if InPut(s.pcs[m.p]) {
        PutKeeps(cfg, s, m.p, m.action.env);
      } else {
        CleanKeepsAll(cfg, s, m.p, m.action.env);
      }
    }
  }

  lemma AliveAfter(cfg: Config, s: State, m: Move)
    requires Inv(cfg, s) && Enabled(s, m) && KeepsOne(s, m.p, EffectOf(cfg, s, m)) && Alive(s) >= 1
    ensures Alive(Step(cfg, s, m)) >= 1
  {
    var e := EffectOf(cfg, s, m);
    HoldsLocks(s, m.p);
    MoveLawful(cfg, s, m);
    WokenIsParked(s, m.p, e);
    SumAfter(s, m.p, e, ConnWeight);
    DequeueLength(s.idle, e.idle);
  }

  lemma SomeLeftStep(cfg: Config, calls: Calls, s: State, m: Move)
    requires SomeLeft(cfg, s) && !calls.cancel && !Evicts(cfg) && cfg.maxIdle >= 1
    requires Enabled(s, m) && Allowed(calls, m)
    ensures SomeLeft(cfg, Step(cfg, s, m))
  {
    InvStep(cfg, s, m);
    NoneGoneStep(cfg, calls, s, m);
    if !Step(cfg, s, m).closed {
      if s.closed {
        ClosedStaysClosed(cfg, s, m);
      } else {
        OpenMove(cfg, s, m);
        MoveKeeps(cfg, calls, s, m);
        AliveAfter(cfg, s, m);
      }
    }
  }

  lemma SomeLeftReachable(cfg: Config, calls: Calls, s: State)
    requires ReachableBy(cfg, calls, s) && !calls.cancel && !Evicts(cfg) && cfg.maxIdle >= 1 && cfg.initialCap >= 1
    ensures SomeLeft(cfg, s)
  {
    var s0 :| Init(cfg, s0) && Leads(Next(cfg, calls), s0, s);
    InvInit(cfg, s0);
    forall t, m | SomeLeft(cfg, t) && Next(cfg, calls)(t, m).Some?
      ensures SomeLeft(cfg, Next(cfg, calls)(t, m).value)
    {
      SomeLeftStep(cfg, calls, t, m);
    }
    InvariantHolds(Next(cfg, calls), (t: State) => SomeLeft(cfg, t), s0, s);
  }

  // ---------------------------------------------------------------- the theorem

  lemma NeverExhausted(cfg: Config, calls: Calls, s: State)
    requires !Exhausts(cfg, calls) && ReachableBy(cfg, calls, s)
    ensures !Exhausted(cfg, s)
  {
    if Exhausted(cfg, s) {
      DriftReachable(cfg, calls, s);
      assert s.count == s.drift;
      if cfg.maxCap < cfg.initialCap && !Evicts(cfg) {
        SomeLeftReachable(cfg, calls, s);
        SumMonotone(s.pcs, ConnWeight, Weight);
      }
    }
  }

  /** For every configuration and every set of calls: these pools can be used up, and no others. */
  lemma ExhaustedIff(cfg: Config, calls: Calls)
    ensures CanExhaust(cfg, calls) <==> Exhausts(cfg, calls)
  {
    if Exhausts(cfg, calls) {
      CanBeExhausted(cfg, calls);
    } else {
      forall s | ReachableBy(cfg, calls, s)
        ensures !Exhausted(cfg, s)
      {
        NeverExhausted(cfg, calls, s);
      }
    }
  }
}
