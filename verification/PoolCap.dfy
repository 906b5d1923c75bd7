/** The cap on live connections, also behind `release`: it resets the counter under the connections that are
    still out, and a `get` past its check may then make another. */
module PoolCap {
  import opened Tally
  import opened Transitions
  import opened PoolMachine
  import opened PoolMoves
  import opened PoolEffects
  import opened PoolInvariants
  import opened PoolOperations
  import opened PoolRuns
  import opened PoolRelease

  /** Connections in the deque, with callers and in hand. */
  function Around(s: State): nat {
    |s.idle| + Sum(s.pcs, Weight)
  }

  ghost predicate CanExceed(cfg: Config, calls: Calls) {
    exists s :: ReachableBy(cfg, calls, s) && Around(s) > Capacity(cfg)
  }

  // ---------------------------------------------------------------- the run

  /** All connections are held, and one more caller has entered `get`. */
  function AllOut(cfg: Config): State {
    var c := Capacity(cfg);
    Here(Took(cfg, c + 2, c), c, GetLockIdle)
  }

  lemma AllOutIsReachable(cfg: Config, calls: Calls)
    ensures ReachableBy(cfg, calls, AllOut(cfg))
  {
    var c := Capacity(cfg);
    var s := Took(cfg, c + 2, c);
    TookIsReachable(cfg, calls, c + 2, c);
    Enters(cfg, calls, s, c);
    ReachableFurther(cfg, calls, s, AllOut(cfg));
  }

  lemma {:induction false} AllHeld(pcs: seq<Pc>)
    requires forall p :: 0 <= p < |pcs| ==> pcs[p].Holding?
    ensures Sum(pcs, Weight) == |pcs|
  {
    if pcs != [] {
      AllHeld(pcs[..|pcs| - 1]);
    }
  }

  /** Whatever the others have: this many hold a connection each. */
  lemma HeldAtLeast(pcs: seq<Pc>, k: nat)
    requires k <= |pcs| && forall p :: 0 <= p < k ==> pcs[p].Holding?
    ensures Sum(pcs, Weight) >= k
    decreases |pcs|
  {
    if k == |pcs| {
      AllHeld(pcs);
    } else {
      HeldAtLeast(pcs[..|pcs| - 1], k);
    }
  }

  /** `release` runs, and the `get` makes one more. */
  lemma Exceeds(cfg: Config, calls: Calls) returns (s: State)
    requires calls.release && cfg.maxCap >= 1
    ensures ReachableBy(cfg, calls, s) && |s.pcs| == Capacity(cfg) + 2
    ensures forall p :: 0 <= p <= Capacity(cfg) ==> s.pcs[p].Holding?
  {
    var c, s0 := Capacity(cfg), AllOut(cfg);
    AllOutIsReachable(cfg, calls);
    Releases(cfg, calls, s0, c + 1);
    var s1 := Released(s0);
    MakesOne(cfg, calls, s1, c);
    s := Made(s1, c, s1.now);
    ReachableFurther(cfg, calls, s1, s);
  }

  // ---------------------------------------------------------------- and otherwise never

  function Gain(s: State, p: nat, e: Effect): int
    requires p < |s.pcs|
  {
    IdleGain(e.idle) + Weight(e.pc) - Weight(s.pcs[p]) + WakeWeight(e.wake)
  }

  /** No section brings in more connections than it counts in, and it counts in below the cap only; but for
      the reset of the counter, which brings in none. */
  ghost predicate NoMoreThanCounted(cfg: Config, s: State, p: nat, e: Effect)
    requires p < |s.pcs|
  {
    if s.pcs[p].RelLockCount? then Gain(s, p, e) <= 0
    else Gain(s, p, e) <= e.count - s.count <= 1 && (e.count > s.count ==> s.count < cfg.maxCap)
  }

  lemma GetCounts(cfg: Config, s: State, p: nat, env: Env)
    requires p < |s.pcs| && InGet(s.pcs[p])
    ensures NoMoreThanCounted(cfg, s, p, GetSection(cfg, s, p, env))
  {
  }

  lemma PutCounts(cfg: Config, s: State, p: nat, env: Env)
    requires p < |s.pcs| && InPut(s.pcs[p])
    ensures NoMoreThanCounted(cfg, s, p, PutSection(cfg, s, p, env))
  {
  }

  lemma CleanCounts(cfg: Config, s: State, p: nat, env: Env)
    requires p < |s.pcs| && InClean(s.pcs[p]) && IndicesOk(s, p)
    ensures NoMoreThanCounted(cfg, s, p, CleanSection(cfg, s, p, env))
  {
  }

  lemma ResetCounts(cfg: Config, s: State, p: nat, env: Env)
    requires p < |s.pcs| && InRelease(s.pcs[p])
    ensures NoMoreThanCounted(cfg, s, p, ReleaseSection(s, p, env))
    ensures s.pcs[p].RelLockCount? ==> ReleaseSection(s, p, env).count == 0
  {
  }

  lemma MoveCounts(cfg: Config, s: State, m: Move)
    requires Enabled(s, m)
    ensures NoMoreThanCounted(cfg, s, m.p, EffectOf(cfg, s, m))
    ensures s.pcs[m.p].RelLockCount? ==> EffectOf(cfg, s, m).count == 0
  {
    if m.action.Run? {
      if InGet(s.pcs[m.p]) {
        GetCounts(cfg, s, m.p, m.action.env);
      } else if InPut(s.pcs[m.p]) {
        PutCounts(cfg, s, m.p, m.action.env);
      } else if InClean(s.pcs[m.p]) {
        CleanCounts(cfg, s, m.p, m.action.env);
      } else {
        ResetCounts(cfg, s, m.p, m.action.env);
      }
    }
  }

  function Below(count: int): nat {
    if count < 0 then -count else 0
  }

  /** Where the cap is zero: a connection can be made only for one that was counted out below zero. */
  ghost predicate Within(cfg: Config, s: State) {
    Inv(cfg, s) && Around(s) + Below(s.count) <= Capacity(cfg)
  }

  lemma AroundAfter(cfg: Config, s: State, m: Move)
    requires Inv(cfg, s) && Enabled(s, m)
    ensures Around(Step(cfg, s, m)) == Around(s) + Gain(s, m.p, EffectOf(cfg, s, m))
  {
    var e := EffectOf(cfg, s, m);
    HoldsLocks(s, m.p);
    MoveLawful(cfg, s, m);
    WokenIsParked(s, m.p, e);
    SumAfter(s, m.p, e, Weight);
    DequeueLength(s.idle, e.idle);
  }

  lemma StillWithin(around: nat, count: int, gain: int, count': int, cap: nat, reset: bool)
    requires around + Below(count) <= cap
    requires if reset then gain <= 0 && count' == 0 else gain <= count' - count <= 1 && (count' > count ==> count < 0)
    ensures around + gain + Below(count') <= cap
  {
  }

  lemma WithinStep(cfg: Config, s: State, m: Move)
    requires Within(cfg, s) && cfg.maxCap == 0 && Enabled(s, m)
    ensures Within(cfg, Step(cfg, s, m))
  {
    var e := EffectOf(cfg, s, m);
    InvStep(cfg, s, m);
    AroundAfter(cfg, s, m);
    MoveCounts(cfg, s, m);
    StillWithin(Around(s), s.count, Gain(s, m.p, e), e.count, Capacity(cfg), s.pcs[m.p].RelLockCount?);
    assert Step(cfg, s, m).count == e.count;
  }

  lemma WithinReachable(cfg: Config, calls: Calls, s: State)
    requires ReachableBy(cfg, calls, s) && cfg.maxCap == 0
    ensures Around(s) <= Capacity(cfg)
  {
    var s0 :| Init(cfg, s0) && Leads(Next(cfg, calls), s0, s);
    InvInit(cfg, s0);
    forall t, m | Within(cfg, t) && Next(cfg, calls)(t, m).Some?
      ensures Within(cfg, Next(cfg, calls)(t, m).value)
    {
      WithinStep(cfg, t, m);
    }
    InvariantHolds(Next(cfg, calls), (t: State) => Within(cfg, t), s0, s);
  }

  /** For every configuration and every set of calls: there can be more connections than the cap exactly if
      `release` is called and the pool makes connections after it was built. */
  lemma ExceedIff(cfg: Config, calls: Calls)
    ensures CanExceed(cfg, calls) <==> calls.release && cfg.maxCap >= 1
  {
    if calls.release && cfg.maxCap >= 1 {
      var s := Exceeds(cfg, calls);
      HeldAtLeast(s.pcs, Capacity(cfg) + 1);
    } else {
      forall s | ReachableBy(cfg, calls, s)
        ensures Around(s) <= Capacity(cfg)
      {
        if calls.release {
          WithinReachable(cfg, calls, s);
        } else {
          StaysOpen(cfg, calls, s);
          ReachableAnyway(cfg, calls, s);
          InvReachable(cfg, s);
        }
      }
    }
  }
}
