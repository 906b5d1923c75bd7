/** Deadlock in the pool.

    `get` takes count and then reqs, `put` takes reqs, then idle, then count, the eviction of a popped
    connection and the clean-up take idle and then count, `release` takes idle and then reqs: a
    cycle.  This file says which states are deadlocks and for which pools `get` and `put` alone can
    never reach one; PoolDeadlockRuns shows that every other pool can. */
module PoolDeadlock {
  import opened Tally
  import opened Transitions
  import opened PoolMachine
  import opened PoolEffects
  import opened PoolInvariants

  // ---------------------------------------------------------------- which states are deadlocks

  /** Calls are in progress, not counting those parked on their oneshot, and none of them can go on. */
  ghost predicate Stuck(s: State) {
    && (exists p :: 0 <= p < |s.pcs| && Active(s.pcs[p]))
    && (forall p :: 0 <= p < |s.pcs| && Active(s.pcs[p]) ==> !CanRun(s, p))
  }

  predicate AwaitsCount(pc: Pc) {
    pc.GetOwes? || pc.CleanLockCount? || pc.PutOverflow? || pc.RelLockCount?
  }

  /** The holders of idle and reqs wait for each other, at once or through a `get` holding count. */
  predicate Cycle(s: State) {
    && s.locks.idle.By? && s.locks.idle.holder < |s.pcs|
    && s.locks.reqs.By? && s.locks.reqs.holder < |s.pcs|
    && var x, r := s.pcs[s.locks.idle.holder], s.pcs[s.locks.reqs.holder];
       || (x.RelLockReqs? && r.PutLockIdle?)
       || (&& s.locks.count.By? && s.locks.count.holder < |s.pcs| && s.pcs[s.locks.count.holder].GetLockReqs?
           && AwaitsCount(x)
           && (s.locks.idle.holder == s.locks.reqs.holder || r.PutLockIdle?))
  }

  lemma CountBlocked(s: State)
    requires LockInv(s) && Stuck(s) && s.locks.count.By?
    ensures s.pcs[s.locks.count.holder].GetLockReqs? && s.locks.reqs.By?
  {
    assert HoldsCount(s.pcs[s.locks.count.holder]);
  }

  lemma IdleBlocked(s: State)
    requires LockInv(s) && Stuck(s) && s.locks.idle.By?
    ensures var x := s.pcs[s.locks.idle.holder];
            || (AwaitsCount(x) && s.locks.count.By?)
            || (x.RelLockReqs? && s.locks.reqs.By?)
  {
    assert HoldsIdle(s.pcs[s.locks.idle.holder]);
  }

  lemma ReqsBlocked(s: State)
    requires LockInv(s) && Stuck(s) && s.locks.reqs.By?
    ensures s.locks.idle.By?
    ensures var r := s.pcs[s.locks.reqs.holder];
            || r.PutLockIdle?
            || (AwaitsCount(r) && s.locks.idle == s.locks.reqs && s.locks.count.By?)
  {
    assert HoldsReqs(s.pcs[s.locks.reqs.holder]);
    assert HoldsIdle(s.pcs[s.locks.reqs.holder]) ==> s.locks.idle == By(s.locks.reqs.holder);
  }

  /** A state in which no unfinished call can go on is a cycle. */
  lemma StuckIsCycle(cfg: Config, s: State)
    requires Reachable(cfg, s) && Stuck(s)
    ensures Cycle(s)
  {
    InvReachable(cfg, s);
    StuckCycle(s);
  }

  lemma StuckCycle(s: State)
    requires LockInv(s) && Stuck(s)
    ensures Cycle(s)
  {
    SomeLockHeld(s);
    if s.locks.count.By? {
      CountBlocked(s);
    }
    if s.locks.reqs.By? {
      ReqsBlocked(s);
    }
    if s.locks.idle.By? {
      IdleBlocked(s);
      if s.locks.count.By? {
        CountBlocked(s);
      }
      ReqsBlocked(s);
    }
  }

  lemma SomeLockHeld(s: State)
    requires LockInv(s) && Stuck(s)
    ensures s.locks.idle.By? || s.locks.count.By? || s.locks.reqs.By?
  {
    var p :| 0 <= p < |s.pcs| && Active(s.pcs[p]);
    if s.locks.closed.By? {
      var q := s.locks.closed.holder;
      assert HoldsClosed(s.pcs[q]) && Active(s.pcs[q]);
    }
  }

  /** Such a cycle never resolves: whatever the other callers do, the same callers keep idle and
      reqs for ever. */
  lemma CycleIsForever(cfg: Config, s: State, s': State)
    requires Reachable(cfg, s) && Cycle(s) && Leads(Next(cfg, AllCalls), s, s')
    ensures Cycle(s') && s'.locks.idle == s.locks.idle && s'.locks.reqs == s.locks.reqs
  {
    InvReachable(cfg, s);
    var x, r := s.locks.idle, s.locks.reqs;
    forall t, m | Caught(cfg, t, x, r) && Next(cfg, AllCalls)(t, m).Some?
      ensures Caught(cfg, Next(cfg, AllCalls)(t, m).value, x, r)
    {
      InvStep(cfg, t, m);
      CycleStep(cfg, t, m);
    }
    InvariantHolds(Next(cfg, AllCalls), (t: State) => Caught(cfg, t, x, r), s, s');
  }

  ghost predicate Caught(cfg: Config, s: State, x: Lock, r: Lock) {
    Inv(cfg, s) && Cycle(s) && s.locks.idle == x && s.locks.reqs == r
  }

  lemma CycleStep(cfg: Config, s: State, m: Move)
    requires Inv(cfg, s) && Cycle(s) && Enabled(s, m)
    ensures var s' := Step(cfg, s, m);
            Cycle(s') && s'.locks.idle == s.locks.idle && s'.locks.reqs == s.locks.reqs
  {
    HoldsLocks(s, m.p);
    MoveLawful(cfg, s, m);
    var e := EffectOf(cfg, s, m);
    WokenIsParked(s, m.p, e);
    CycleApply(cfg, s, m, e, Clock(s, m));
  }

  /** None of the callers in the cycle can move, and those that move take none of its locks. */
  lemma CycleApply(cfg: Config, s: State, m: Move, e: Effect, now: nat)
    requires LockInv(s) && Cycle(s) && Enabled(s, m) && LocksMove(s, m.p, e)
    requires e.wake.WakeUp? ==> e.wake.waiter < |s.pcs| && e.wake.waiter != m.p && s.pcs[e.wake.waiter].Parked?
    ensures var s' := Apply(s, m.p, e, now);
            Cycle(s') && s'.locks.idle == s.locks.idle && s'.locks.reqs == s.locks.reqs
  {
    assert m.p != s.locks.idle.holder && m.p != s.locks.reqs.holder;
    assert AwaitsCount(s.pcs[s.locks.idle.holder]) ==> m.p != s.locks.count.holder;
  }

  // ---------------------------------------------------------------- get, put and clean_idle_conns

  /** Any number of callers making only the allowed calls never get stuck. */
  ghost predicate DeadlockFree(cfg: Config, calls: Calls) {
    forall s :: ReachableBy(cfg, calls, s) ==> !Stuck(s)
  }

  /** With get and put alone: all connections fit into the deque, and if `get` evicts there is at
      most one.  With clean_idle_conns besides: the pool has no connections at all.  With release
      no pool is safe. */
  predicate Safe(cfg: Config, calls: Calls) {
    !calls.release &&
    if calls.clean then Capacity(cfg) == 0
    else Capacity(cfg) <= cfg.maxIdle && (Capacity(cfg) <= 1 || !Evicts(cfg))
  }

  predicate CallsPc(cfg: Config, calls: Calls, pc: Pc) {
    !InRelease(pc) && (calls.clean || (!InClean(pc) && !pc.PutOverflow? && (!Evicts(cfg) ==> !pc.GetOwes?)))
  }

  ghost predicate CallsPcs(cfg: Config, calls: Calls, pcs: seq<Pc>) {
    forall p :: 0 <= p < |pcs| ==> CallsPc(cfg, calls, pcs[p])
  }

  ghost predicate CallsInv(cfg: Config, calls: Calls, s: State) {
    Inv(cfg, s) && !s.closed && CallsPcs(cfg, calls, s.pcs)
  }

  /** A `put` on its way to the deque finds room there: its own connection is counted but not in it. */
  lemma RoomInDeque(cfg: Config, calls: Calls, s: State, p: nat)
    requires CallsInv(cfg, calls, s) && Safe(cfg, calls) && !calls.clean && p < |s.pcs| && s.pcs[p].PutLockIdle?
    ensures |s.idle| < cfg.maxIdle
  {
    SumAtLeast(s.pcs, Weight, p);
  }

  lemma GetCalls(cfg: Config, calls: Calls, s: State, p: nat, env: Env)
    requires p < |s.pcs| && InGet(s.pcs[p]) && CallsPc(cfg, calls, s.pcs[p])
    ensures CallsPc(cfg, calls, GetSection(cfg, s, p, env).pc)
  {
  }

  lemma PutCalls(cfg: Config, calls: Calls, s: State, p: nat, env: Env)
    requires p < |s.pcs| && InPut(s.pcs[p]) && CallsPc(cfg, calls, s.pcs[p])
    requires !calls.clean && s.pcs[p].PutLockIdle? ==> |s.idle| < cfg.maxIdle
    ensures CallsPc(cfg, calls, PutSection(cfg, s, p, env).pc)
  {
  }

  lemma CleanCalls(cfg: Config, calls: Calls, s: State, p: nat, env: Env)
    requires p < |s.pcs| && InClean(s.pcs[p]) && IndicesOk(s, p) && calls.clean
    ensures CallsPc(cfg, calls, CleanSection(cfg, s, p, env).pc)
  {
  }

  lemma CallsEffect(cfg: Config, calls: Calls, s: State, m: Move)
    requires CallsPcs(cfg, calls, s.pcs) && Enabled(s, m) && Allowed(calls, m)
    requires !calls.clean && s.pcs[m.p].PutLockIdle? ==> |s.idle| < cfg.maxIdle
    requires !calls.release
    ensures CallsPc(cfg, calls, EffectOf(cfg, s, m).pc)
  {
    assert CallsPc(cfg, calls, s.pcs[m.p]);
    if m.action.Run? {
      if InGet(s.pcs[m.p]) {
        GetCalls(cfg, calls, s, m.p, m.action.env);
      } else if InPut(s.pcs[m.p]) {
        PutCalls(cfg, calls, s, m.p, m.action.env);
      } else {
        CleanCalls(cfg, calls, s, m.p, m.action.env);
      }
    }
  }

  lemma CallsPcsStep(cfg: Config, calls: Calls, pcs: seq<Pc>, p: nat, e: Effect)
    requires p < |pcs| && CallsPcs(cfg, calls, pcs) && CallsPc(cfg, calls, e.pc)
    requires e.wake.WakeUp? ==> e.wake.pc.Served? || e.wake.pc.Refused?
    ensures CallsPcs(cfg, calls, Awaken(pcs, e.wake)[p := e.pc])
  {
  }

  lemma CallsStep(cfg: Config, calls: Calls, s: State, m: Move)
    requires CallsInv(cfg, calls, s) && Safe(cfg, calls) && Enabled(s, m) && Allowed(calls, m)
    ensures CallsInv(cfg, calls, Step(cfg, s, m))
  {
    HoldsLocks(s, m.p);
    MoveLawful(cfg, s, m);
    if !calls.clean && s.pcs[m.p].PutLockIdle? {
      RoomInDeque(cfg, calls, s, m.p);
    }
    CallsEffect(cfg, calls, s, m);
    CallsPcsStep(cfg, calls, s.pcs, m.p, EffectOf(cfg, s, m));
    InvApply(cfg, s, m.p, EffectOf(cfg, s, m), Clock(s, m));
  }

  /** The holders of idle and reqs in a cycle are accountable for more connections than there are. */
  lemma NoCycle(cfg: Config, calls: Calls, s: State)
    requires CallsInv(cfg, calls, s) && Safe(cfg, calls)
    ensures !Cycle(s)
  {
    if Cycle(s) {
      var x, r := s.locks.idle.holder, s.locks.reqs.holder;
      assert CallsPc(cfg, calls, s.pcs[x]) && CallsPc(cfg, calls, s.pcs[r]);
      SumAtLeast(s.pcs, Weight, r);
      if x < r {
        SumAtLeastTwo(s.pcs, Weight, x, r);
      } else if r < x {
        SumAtLeastTwo(s.pcs, Weight, r, x);
      }
    }
  }

  lemma CallsReachable(cfg: Config, calls: Calls, s: State)
    requires Safe(cfg, calls) && ReachableBy(cfg, calls, s)
    ensures CallsInv(cfg, calls, s)
  {
    var s0 :| Init(cfg, s0) && Leads(Next(cfg, calls), s0, s);
    InvInit(cfg, s0);
    forall t, m | CallsInv(cfg, calls, t) && Next(cfg, calls)(t, m).Some?
      ensures CallsInv(cfg, calls, Next(cfg, calls)(t, m).value)
    {
      CallsStep(cfg, calls, t, m);
    }
    InvariantHolds(Next(cfg, calls), (t: State) => CallsInv(cfg, calls, t), s0, s);
  }

  /** In a safe pool the locks are never waited for in a cycle, not even by some callers while others go on. */
  lemma SafeHasNoCycle(cfg: Config, calls: Calls, s: State)
    requires Safe(cfg, calls) && ReachableBy(cfg, calls, s)
    ensures !Cycle(s)
  {
    CallsReachable(cfg, calls, s);
    NoCycle(cfg, calls, s);
  }

  lemma NotStuck(cfg: Config, calls: Calls, s: State)
    requires CallsInv(cfg, calls, s) && Safe(cfg, calls)
    ensures !Stuck(s)
  {
    NoCycle(cfg, calls, s);
    if Stuck(s) {
      StuckCycle(s);
    }
  }

  lemma SafeIsDeadlockFree(cfg: Config, calls: Calls)
    requires Safe(cfg, calls)
    ensures DeadlockFree(cfg, calls)
  {
    forall s | ReachableBy(cfg, calls, s)
      ensures !Stuck(s)
    {
      CallsReachable(cfg, calls, s);
      NotStuck(cfg, calls, s);
    }
  }
}
