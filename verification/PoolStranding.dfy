/** In which pools, over every interleaving, a waiter can be left waiting while the pool could serve it. */
module PoolStranding {
  import opened Tally
  import opened Transitions
  import opened PoolMachine
  import opened PoolMoves
  import opened PoolEffects
  import opened PoolInvariants
  import opened PoolOperations
  import opened PoolRelease
  import opened PoolStrandingRuns

  // ---------------------------------------------------------------- a deque without room

  /** A `get` that found the deque empty. */
  predicate FoundEmpty(pc: Pc) {
    pc.GetLockCount? || pc.GetLockReqs? || pc.Parked?
  }

  predicate Calm(pc: Pc) {
    !pc.GetOwes? && (pc.CleanLoop? ==> pc.removed == 0)
  }

  function NotFoundEmpty(): Pc -> bool {
    (pc: Pc) => !FoundEmpty(pc)
  }

  ghost predicate Drained(s: State) {
    s.idle == [] && Everyone(s.pcs, Calm)
  }

  /** Without room in the deque it never fills again: once somebody has found it empty it stays empty, and
      nothing more is thrown away from it. */
  ghost predicate DryInv(s: State) {
    Drained(s) || Everyone(s.pcs, NotFoundEmpty())
  }

  lemma DryEffect(cfg: Config, s: State, m: Move)
    requires Enabled(s, m) && cfg.maxIdle == 0 && s.idle == [] && Calm(s.pcs[m.p])
    ensures var e := EffectOf(cfg, s, m);
            Dequeue(s.idle, e.idle) == [] && Calm(e.pc) && (e.wake.WakeUp? ==> Calm(e.wake.pc))
  {
  }

  /** Only a scan of an empty deque finds it empty. */
  lemma FirstToFind(cfg: Config, s: State, m: Move)
    requires Enabled(s, m) && !FoundEmpty(s.pcs[m.p])
    ensures FoundEmpty(EffectOf(cfg, s, m).pc) ==>
              s.pcs[m.p].GetScan? && s.idle == [] && EffectOf(cfg, s, m).idle.KeepIdle?
  {
    if m.action.Run? && InGet(s.pcs[m.p]) {
      FirstGetToFind(cfg, s, m.p, m.action.env);
    } else {
      OthersFindNothing(cfg, s, m);
    }
  }

  lemma FirstGetToFind(cfg: Config, s: State, p: nat, env: Env)
    requires p < |s.pcs| && InGet(s.pcs[p]) && !FoundEmpty(s.pcs[p])
    ensures FoundEmpty(GetSection(cfg, s, p, env).pc) ==>
              s.pcs[p].GetScan? && s.idle == [] && GetSection(cfg, s, p, env).idle.KeepIdle?
  {
  }

  lemma OthersFindNothing(cfg: Config, s: State, m: Move)
    requires Enabled(s, m) && !(m.action.Run? && InGet(s.pcs[m.p]))
    ensures !FoundEmpty(EffectOf(cfg, s, m).pc)
  {
  }

  /** While p scans the deque nobody else holds it. */
  lemma OthersCalm(s: State, p: nat)
    requires LockInv(s) && p < |s.pcs| && s.pcs[p].GetScan?
    ensures Everyone(s.pcs, Calm)
  {
    forall q | 0 <= q < |s.pcs|
      ensures Calm(s.pcs[q])
    {
      assert HoldsIdle(s.pcs[p]) && s.locks.idle == By(p);
      assert HoldsIdle(s.pcs[q]) ==> q == p;
    }
  }

  lemma DryStep(cfg: Config, s: State, m: Move)
    requires cfg.maxIdle == 0 && Inv(cfg, s) && DryInv(s) && Enabled(s, m)
    ensures DryInv(Step(cfg, s, m))
  {
    var e := EffectOf(cfg, s, m);
    HoldsLocks(s, m.p);
    MoveLawful(cfg, s, m);
    if Drained(s) {
      DryEffect(cfg, s, m);
      EveryoneStep(s, m.p, e, Clock(s, m), Calm);
    } else {
      assert NotFoundEmpty()(s.pcs[m.p]);
      FirstToFind(cfg, s, m);
      if FoundEmpty(e.pc) {
        OthersCalm(s, m.p);
        EveryoneStep(s, m.p, e, Clock(s, m), Calm);
      } else {
        EveryoneStep(s, m.p, e, Clock(s, m), NotFoundEmpty());
      }
    }
  }

  // ---------------------------------------------------------------- a queue at the cap

  /** A `put` that holds the waiter stack on its way to the deque. */
  function NotPutting(): Pc -> bool {
    (pc: Pc) => !pc.PutLockIdle? && !pc.PutOverflow?
  }

  function NotAtReqs(): Pc -> bool {
    (pc: Pc) => !pc.GetLockReqs?
  }

  function NotOwing(): Pc -> bool {
    (pc: Pc) => !pc.PutOwes?
  }

  /** Without lifetime limit and cancellation nothing is closed on its way back but by a `put` that finds
      nobody waiting, and while somebody waits or is about to, the counter stays at the cap. */
  ghost predicate QueueInv(cfg: Config, s: State) {
    && NoneGone(s.reqs) && Everyone(s.pcs, NotOwing())
    && (s.reqs == [] || Everyone(s.pcs, NotPutting()))
    && ((s.reqs == [] && Everyone(s.pcs, NotAtReqs())) || s.count >= cfg.maxCap)
  }

  lemma NotOwingEffect(cfg: Config, s: State, m: Move)
    requires Enabled(s, m) && cfg.maxLifetime == 0 && NoneGone(s.reqs)
    ensures !EffectOf(cfg, s, m).pc.PutOwes?
  {
  }

  lemma PuttingEffect(cfg: Config, s: State, m: Move)
    requires Enabled(s, m) && NotPutting()(s.pcs[m.p]) && !NotPutting()(EffectOf(cfg, s, m).pc)
    ensures s.reqs == [] && EffectOf(cfg, s, m).reqs.KeepReqs?
  {
  }

  lemma PushEffect(cfg: Config, s: State, m: Move)
    requires Enabled(s, m) && EffectOf(cfg, s, m).reqs.PushReq?
    ensures s.pcs[m.p].GetLockReqs? && s.locks.reqs.Free? && EffectOf(cfg, s, m).count == s.count
    ensures NotPutting()(EffectOf(cfg, s, m).pc)
  {
  }

  lemma AtReqsEffect(cfg: Config, s: State, m: Move)
    requires Enabled(s, m) && EffectOf(cfg, s, m).pc.GetLockReqs? && s.pcs[m.p] != GetLockReqs
    ensures s.count >= cfg.maxCap && EffectOf(cfg, s, m).count == s.count
  {
  }

  /** What lowers the counter of an open pool. */
  lemma LowerEffect(cfg: Config, s: State, m: Move)
    requires Enabled(s, m) && !EffectOf(cfg, s, m).closed && EffectOf(cfg, s, m).count < s.count
    requires !InRelease(s.pcs[m.p])
    ensures !Calm(s.pcs[m.p]) || s.pcs[m.p].PutOwes? || (s.pcs[m.p].PutOverflow? && s.locks.count.Free?)
    ensures EffectOf(cfg, s, m).reqs.KeepReqs? && !EffectOf(cfg, s, m).pc.GetLockReqs?
  {
  }

  /** The holder of the waiter stack keeps others from pushing. */
  lemma NobodyPutting(s: State)
    requires LockInv(s) && s.locks.reqs.Free?
    ensures Everyone(s.pcs, NotPutting())
  {
    forall q | 0 <= q < |s.pcs|
      ensures NotPutting()(s.pcs[q])
    {
      assert !HoldsReqs(s.pcs[q]);
    }
  }

  lemma NobodyAtReqs(s: State)
    requires LockInv(s) && s.locks.count.Free?
    ensures Everyone(s.pcs, NotAtReqs())
  {
    forall q | 0 <= q < |s.pcs|
      ensures NotAtReqs()(s.pcs[q])
    {
      assert !HoldsCount(s.pcs[q]);
    }
  }

  lemma SomebodyParked(s: State)
    requires WaiterInv(s) && NoneGone(s.reqs) && s.reqs != []
    ensures exists q :: 0 <= q < |s.pcs| && s.pcs[q].Parked?
  {
    assert s.reqs[0].Waiting?;
  }

  lemma NobodyQueues(s: State)
    requires WaiterInv(s) && NoneGone(s.reqs) && Everyone(s.pcs, NotFoundEmpty())
    ensures s.reqs == [] && Everyone(s.pcs, NotAtReqs())
  {
    forall q | 0 <= q < |s.pcs|
      ensures NotAtReqs()(s.pcs[q])
    {
      assert NotFoundEmpty()(s.pcs[q]);
    }
    if s.reqs != [] {
      SomebodyParked(s);
    }
  }

  lemma PuttingStep(cfg: Config, s: State, m: Move)
    requires Inv(cfg, s) && Enabled(s, m) && (s.reqs == [] || Everyone(s.pcs, NotPutting()))
    requires StackMoves(s, m.p, EffectOf(cfg, s, m))
    ensures var s' := Step(cfg, s, m); s'.reqs == [] || Everyone(s'.pcs, NotPutting())
  {
    var e, s' := EffectOf(cfg, s, m), Step(cfg, s, m);
    if s'.reqs != [] {
      if e.reqs.PushReq? {
        PushEffect(cfg, s, m);
        NobodyPutting(s);
      } else {
        assert s.reqs != [];
        assert NotPutting()(s.pcs[m.p]);
        if !NotPutting()(e.pc) {
          PuttingEffect(cfg, s, m);
        }
      }
      EveryoneStep(s, m.p, e, Clock(s, m), NotPutting());
    }
  }

  /** The counter is lowered only where nobody waits or is about to. */
  lemma LowersAlone(cfg: Config, s: State, m: Move)
    requires Inv(cfg, s) && DryInv(s) && QueueInv(cfg, s) && Enabled(s, m)
    requires !EffectOf(cfg, s, m).closed && EffectOf(cfg, s, m).count < s.count && !InRelease(s.pcs[m.p])
    ensures s.reqs == [] && Everyone(s.pcs, NotAtReqs())
  {
    LowerEffect(cfg, s, m);
    assert NotOwing()(s.pcs[m.p]);
    if s.pcs[m.p].PutOverflow? {
      NobodyAtReqs(s);
      assert !NotPutting()(s.pcs[m.p]);
    } else {
      assert !Calm(s.pcs[m.p]);
      NobodyQueues(s);
    }
  }

  lemma AtCapStep(cfg: Config, s: State, m: Move)
    requires Inv(cfg, s) && DryInv(s) && QueueInv(cfg, s) && Enabled(s, m)
    requires !EffectOf(cfg, s, m).closed && !InRelease(s.pcs[m.p]) && StackMoves(s, m.p, EffectOf(cfg, s, m))
    ensures var s' := Step(cfg, s, m);
            (s'.reqs == [] && Everyone(s'.pcs, NotAtReqs())) || s'.count >= cfg.maxCap
  {
    var e, s' := EffectOf(cfg, s, m), Step(cfg, s, m);
    if e.count < s.count {
      LowersAlone(cfg, s, m);
      LowerEffect(cfg, s, m);
      EveryoneStep(s, m.p, e, Clock(s, m), NotAtReqs());
    } else if s.count < cfg.maxCap {
      StaysAlone(cfg, s, m);
    }
  }

  lemma StaysAlone(cfg: Config, s: State, m: Move)
    requires Enabled(s, m) && StackMoves(s, m.p, EffectOf(cfg, s, m)) && s.count < cfg.maxCap
    requires s.reqs == [] && Everyone(s.pcs, NotAtReqs())
    ensures Step(cfg, s, m).reqs == [] && Everyone(Step(cfg, s, m).pcs, NotAtReqs())
  {
    var e := EffectOf(cfg, s, m);
    assert NotAtReqs()(s.pcs[m.p]);
    if e.pc.GetLockReqs? {
      AtReqsEffect(cfg, s, m);
    }
    if e.reqs.PushReq? {
      PushEffect(cfg, s, m);
    }
    EveryoneStep(s, m.p, e, Clock(s, m), NotAtReqs());
  }

  lemma QueueStep(cfg: Config, calls: Calls, s: State, m: Move)
    requires cfg.maxLifetime == 0 && !calls.cancel && Inv(cfg, s) && DryInv(s) && QueueInv(cfg, s)
    requires Enabled(s, m) && Allowed(calls, m) && !EffectOf(cfg, s, m).closed && !InRelease(s.pcs[m.p])
    ensures QueueInv(cfg, Step(cfg, s, m))
  {
    HoldsLocks(s, m.p);
    MoveLawful(cfg, s, m);
    NoneGoneStep(cfg, calls, s, m);
    NotOwingEffect(cfg, s, m);
    EveryoneStep(s, m.p, EffectOf(cfg, s, m), Clock(s, m), NotOwing());
    PuttingStep(cfg, s, m);
    AtCapStep(cfg, s, m);
  }

  /** What holds of an open pool that has no room in its deque. */
  ghost predicate KeepsUp(cfg: Config, calls: Calls, s: State) {
    Inv(cfg, s) && (s.closed || (DryInv(s) && (cfg.maxCap == 0 || QueueInv(cfg, s))))
  }

  lemma KeepsUpStep(cfg: Config, calls: Calls, s: State, m: Move)
    requires cfg.maxIdle == 0 && (cfg.maxCap == 0 || (cfg.maxLifetime == 0 && !calls.cancel))
    requires KeepsUp(cfg, calls, s) && Enabled(s, m) && Allowed(calls, m)
    ensures KeepsUp(cfg, calls, Step(cfg, s, m))
  {
    InvStep(cfg, s, m);
    if s.closed {
      ClosedStaysClosed(cfg, s, m);
    } else if !EffectOf(cfg, s, m).closed {
      DryStep(cfg, s, m);
      OpenMove(cfg, s, m);
      if cfg.maxCap > 0 {
        QueueStep(cfg, calls, s, m);
      }
    }
  }

  lemma KeepsUpReachable(cfg: Config, calls: Calls, s: State)
    requires cfg.maxIdle == 0 && (cfg.maxCap == 0 || (cfg.maxLifetime == 0 && !calls.cancel))
    requires ReachableBy(cfg, calls, s)
    ensures KeepsUp(cfg, calls, s)
  {
    var s0 :| Init(cfg, s0) && Leads(Next(cfg, calls), s0, s);
    InvInit(cfg, s0);
    forall t, m | KeepsUp(cfg, calls, t) && Next(cfg, calls)(t, m).Some?
      ensures KeepsUp(cfg, calls, Next(cfg, calls)(t, m).value)
    {
      KeepsUpStep(cfg, calls, t, m);
    }
    InvariantHolds(Next(cfg, calls), (t: State) => KeepsUp(cfg, calls, t), s0, s);
  }

  lemma NeverStrands(cfg: Config, calls: Calls, s: State)
    requires !Strands(cfg, calls) && ReachableBy(cfg, calls, s) && !s.closed
    ensures NoStranded(cfg, SharedOf(s))
  {
    ReachableAnyway(cfg, calls, s);
    InvReachable(cfg, s);
    if Capacity(cfg) > 0 && HasWaiter(s.reqs) {
      KeepsUpReachable(cfg, calls, s);
      var i :| 0 <= i < |s.reqs| && s.reqs[i].Waiting?;
      assert !NotFoundEmpty()(s.pcs[s.reqs[i].waiter]);
    }
  }

  // ---------------------------------------------------------------- the theorems

  /** For every configuration and every set of calls: a waiter can be stranded in exactly these pools. */
  lemma StrandedIff(cfg: Config, calls: Calls)
    ensures CanStrand(cfg, calls) <==> Strands(cfg, calls)
  {
    if Strands(cfg, calls) {
      if cfg.maxIdle >= 1 {
        StrandsBesideDeque(cfg, calls);
      } else {
        var s, s', r, c, t := StrandsUnderCap(cfg, calls);
      }
    } else {
      forall s | ReachableBy(cfg, calls, s)
        ensures !Stranded(cfg, s)
      {
        if !s.closed {
          NeverStrands(cfg, calls, s);
        }
      }
    }
  }

  /** Whatever the configuration: `release` can leave somebody parked in the closed pool. */
  lemma ForgottenIff(cfg: Config, calls: Calls)
    ensures (exists s :: ReachableBy(cfg, calls, s) && Forgotten(s)) <==> calls.release
  {
    if calls.release {
      var s := Forgets(cfg, calls);
    } else {
      forall s | ReachableBy(cfg, calls, s)
        ensures !Forgotten(s)
      {
        StaysOpen(cfg, calls, s);
      }
    }
  }
}
