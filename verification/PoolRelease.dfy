/** `release` resets the counter.  A call that was past its closed check by then may still count a
    connection out, and the counter goes below zero: this file says in which pools it can. */
module PoolRelease {
  import opened Tally
  import opened Transitions
  import opened PoolMachine
  import opened PoolMoves
  import opened PoolEffects
  import opened PoolInvariants
  import opened PoolOperations
  import opened PoolRuns

  ghost predicate CanUnderflow(cfg: Config, calls: Calls) {
    exists s :: ReachableBy(cfg, calls, s) && s.count < 0
  }

  /** There are connections, and one that is on its way back past a completed `release` can be counted
      out there: with its waiter gone, thrown away by a `get`, or as one too many for the deque. */
  predicate Underflows(cfg: Config, calls: Calls) {
    calls.release && Capacity(cfg) >= 1 && (calls.cancel || Evicts(cfg) || cfg.maxIdle < Capacity(cfg))
  }

  // ---------------------------------------------------------------- the runs

  /** `release` runs from start to end between two steps of the others. */
  lemma Releases(cfg: Config, calls: Calls, s: State, p: nat)
    requires calls.release && ReachableBy(cfg, calls, s) && s.locks == Unlocked() && s.reqs == []
    requires p < |s.pcs| && s.pcs[p].Ready?
    ensures ReachableBy(cfg, calls, Released(s)) && Released(s).pcs == s.pcs
  {
    ReachableAnyway(cfg, calls, s);
    ReleaseSucceeds(cfg, calls, s, p);
    ReachableFurther(cfg, calls, s, Released(s));
  }

  lemma CountsDown(cfg: Config, calls: Calls, s: State, p: nat)
    requires ReachableBy(cfg, calls, s) && s.count == 0 && s.locks.count.Free?
    requires p < |s.pcs| && (s.pcs[p].PutOwes? || s.pcs[p].GetOwes? || s.pcs[p].PutOverflow?)
    ensures CanUnderflow(cfg, calls)
  {
    var m := Move(p, Run(Fair(s.now)));
    One(cfg, calls, s, m);
    ReachableFurther(cfg, calls, s, Step(cfg, s, m));
    assert Step(cfg, s, m).count == -1;
  }

  /** All connections are taken; a `get` queued up and was dropped. */
  function Deserted(cfg: Config, n: nat): State {
    Took(cfg, n, Capacity(cfg)).(reqs := [Gone])
  }

  lemma DesertedIsReachable(cfg: Config, calls: Calls, n: nat)
    requires calls.cancel && Capacity(cfg) < n
    ensures ReachableBy(cfg, calls, Deserted(cfg, n))
  {
    var s := Took(cfg, n, Capacity(cfg));
    TookIsReachable(cfg, calls, n, Capacity(cfg));
    GetDropped(cfg, calls, s, Capacity(cfg));
    assert s.reqs + [Gone] == [Gone];
    ReachableFurther(cfg, calls, s, Deserted(cfg, n));
  }

  /** A `put` finds its waiter gone and closes the connection, `release` runs, the `put` counts down. */
  lemma UnderflowByCancelling(cfg: Config, calls: Calls)
    requires calls.release && calls.cancel && 1 <= Capacity(cfg)
    ensures CanUnderflow(cfg, calls)
  {
    var n := Capacity(cfg) + 1;
    var s, c := Deserted(cfg, n), Conn(0, 0);
    DesertedIsReachable(cfg, calls, n);
    PutToReqs(cfg, calls, s, 0);
    var s1 := Here(s, 0, PutLockReqs(c, 0));
    PutGoneMove(cfg, calls, s1, 0, Fair(0));
    var s2 := Discard(Here(s1, 0, PutOwes).(reqs := []), c, true);
    LeadsTrans(Next(cfg, calls), s, s1, s2);
    ReachableFurther(cfg, calls, s, s2);
    Releases(cfg, calls, s2, Capacity(cfg));
    CountsDown(cfg, calls, Released(s2), 0);
  }

  /** Of m holders the first k are past the checks of their `put`, and the first j of these back. */
  function Putters(n: nat, m: nat, k: nat, j: nat): seq<Pc> {
    seq(n, i requires 0 <= i =>
      if i < j then Ready else if i < k then PutLockReqs(Conn(i, 0), 0)
      else if i < m then Holding(Conn(i, 0), 0) else Ready)
  }

  function Putting(cfg: Config, n: nat, k: nat): State {
    Took(cfg, n, Capacity(cfg)).(pcs := Putters(n, Capacity(cfg), k, 0))
  }

  lemma {:induction false} PuttingIsReachable(cfg: Config, calls: Calls, n: nat, k: nat)
    requires k <= Capacity(cfg) <= n
    ensures ReachableBy(cfg, calls, Putting(cfg, n, k))
  {
    var m := Capacity(cfg);
    if k == 0 {
      TookIsReachable(cfg, calls, n, m);
      assert Putters(n, m, 0, 0) == Holders(n, m);
    } else {
      var s := Putting(cfg, n, k - 1);
      PuttingIsReachable(cfg, calls, n, k - 1);
      PutToReqs(cfg, calls, s, k - 1);
      assert s.pcs[k - 1 := PutLockReqs(Conn(k - 1, 0), 0)] == Putters(n, m, k, 0);
      ReachableFurther(cfg, calls, s, Putting(cfg, n, k));
    }
  }

  /** `release` has run, and the first j of k putters have put back. */
  function PutBack(cfg: Config, n: nat, k: nat, j: nat): State {
    Released(Putting(cfg, n, k)).(pcs := Putters(n, Capacity(cfg), k, j), idle := IdleFrom(0, j))
  }

  lemma NextPutter(n: nat, m: nat, k: nat, j: nat)
    requires j < k <= m <= n
    ensures Putters(n, m, k, j)[j] == PutLockReqs(Conn(j, 0), 0)
    ensures Putters(n, m, k, j)[j := Ready] == Putters(n, m, k, j + 1)
    ensures IdleFrom(0, j) + [IdleConn(Conn(j, 0), 0)] == IdleFrom(0, j + 1)
  {
  }

  lemma PutsBackOne(cfg: Config, calls: Calls, n: nat, k: nat, j: nat)
    requires j < k <= Capacity(cfg) < n && j < cfg.maxIdle
    ensures Leads(Next(cfg, calls), PutBack(cfg, n, k, j), PutBack(cfg, n, k, j + 1))
  {
    NextPutter(n, Capacity(cfg), k, j);
    ReqsToDeque(cfg, calls, PutBack(cfg, n, k, j), j);
  }

  lemma PutBackNone(cfg: Config, calls: Calls, n: nat, k: nat)
    requires calls.release && k <= Capacity(cfg) < n
    ensures ReachableBy(cfg, calls, PutBack(cfg, n, k, 0))
  {
    var s := Putting(cfg, n, k);
    PuttingIsReachable(cfg, calls, n, k);
    Releases(cfg, calls, s, Capacity(cfg));
    assert IdleFrom(0, 0) == [];
    assert PutBack(cfg, n, k, 0) == Released(s);
  }

  lemma {:induction false} PutBackIsReachable(cfg: Config, calls: Calls, n: nat, k: nat, j: nat)
    requires calls.release && j <= k <= Capacity(cfg) < n && j <= cfg.maxIdle
    ensures ReachableBy(cfg, calls, PutBack(cfg, n, k, j))
  {
    if j == 0 {
      PutBackNone(cfg, calls, n, k);
    } else {
      PutBackIsReachable(cfg, calls, n, k, j - 1);
      PutsBackOne(cfg, calls, n, k, j - 1);
      ReachableFurther(cfg, calls, PutBack(cfg, n, k, j - 1), PutBack(cfg, n, k, j));
    }
  }

  /** More `put`s are past their checks than the deque has room for, `release` runs, and the last of them
      closes its connection and counts down. */
  lemma UnderflowByOverflow(cfg: Config, calls: Calls)
    requires calls.release && cfg.maxIdle < Capacity(cfg)
    ensures CanUnderflow(cfg, calls)
  {
    var n, k := Capacity(cfg) + 1, cfg.maxIdle;
    var s, c := PutBack(cfg, n, k + 1, k), Conn(k, 0);
    PutBackIsReachable(cfg, calls, n, k + 1, k);
    var s1 := Here(s, k, PutLockIdle(c)).(locks := s.locks.(reqs := By(k)));
    PutLockReqsMove(cfg, calls, s, k, Fair(0));
    OverflowMove(cfg, calls, s1, k, Fair(0));
    var s2 := Here(s1, k, PutOverflow).(closedLog := s1.closedLog + [c.id], locks := s1.locks.(idle := By(k)));
    LeadsTrans(Next(cfg, calls), s, s1, s2);
    ReachableFurther(cfg, calls, s, s2);
    CountsDown(cfg, calls, s2, k);
  }

  /** One connection is on its way back and g has entered `get`. */
  function Poised(cfg: Config, n: nat): State
    requires Capacity(cfg) < n
  {
    Here(Putting(cfg, n, 1), Capacity(cfg), GetLockIdle)
  }

  lemma PoisedIsReachable(cfg: Config, calls: Calls, n: nat)
    requires 1 <= Capacity(cfg) < n
    ensures ReachableBy(cfg, calls, Poised(cfg, n))
  {
    var s, g := Putting(cfg, n, 1), Capacity(cfg);
    PuttingIsReachable(cfg, calls, n, 1);
    Enters(cfg, calls, s, g);
    ReachableFurther(cfg, calls, s, Poised(cfg, n));
  }

  /** A `get` and a `put` are past their checks, `release` runs, the `put` returns its connection to the
      deque, and the `get` throws it away there and counts down. */
  lemma UnderflowByEviction(cfg: Config, calls: Calls)
    requires calls.release && 1 <= Capacity(cfg) <= cfg.maxIdle && Evicts(cfg)
    ensures CanUnderflow(cfg, calls)
  {
    var g := Capacity(cfg);
    var s := Poised(cfg, g + 2);
    PoisedIsReachable(cfg, calls, g + 2);
    Releases(cfg, calls, s, g + 1);
    var s1 := Released(s);
    ReqsToDeque(cfg, calls, s1, 0);
    var s2 := Here(s1, 0, Ready).(idle := s1.idle + [IdleConn(Conn(0, 0), 0)]);
    ReachableFurther(cfg, calls, s1, s2);
    EvictsOne(cfg, calls, s2, g);
  }

  lemma EvictsOne(cfg: Config, calls: Calls, s: State, g: nat)
    requires ReachableBy(cfg, calls, s) && s.locks == Unlocked() && s.count == 0 && s.now == 0
    requires g < |s.pcs| && s.pcs[g].GetLockIdle? && s.idle == [IdleConn(Conn(0, 0), 0)] && Evicts(cfg)
    ensures CanUnderflow(cfg, calls)
  {
    var s1 := Here(s, g, GetScan).(locks := s.locks.(idle := By(g)));
    GetLockIdleMove(cfg, calls, s, g, Fair(0));
    LateEvicts(cfg, s.idle[0], 0);
    ScanEvictMove(cfg, calls, s1, g, Late(cfg, 0));
    var s2 := Discard(At(s1, g, GetOwes, Late(cfg, 0).t2).(idle := s1.idle[1..]), s.idle[0].conn, true);
    LeadsTrans(Next(cfg, calls), s, s1, s2);
    ReachableFurther(cfg, calls, s, s2);
    CountsDown(cfg, calls, s2, g);
  }

  // ---------------------------------------------------------------- and otherwise never

  /** Nothing is about to be counted out. */
  predicate Harmless(pc: Pc) {
    !pc.GetOwes? && !pc.PutOwes? && !pc.PutOverflow? && (pc.CleanLoop? ==> pc.removed == 0)
  }

  /** Connections on their way to the deque. */
  function ReturningWeight(pc: Pc): nat {
    if pc.PutLockReqs? || pc.PutLockIdle? then 1 else 0
  }

  /** No connection was ever made, or the deque has room for all and nothing is thrown away. */
  ghost predicate Roomy(cfg: Config, calls: Calls, s: State) {
    || (Capacity(cfg) == 0 && s.births == [])
    || (&& !Evicts(cfg) && !calls.cancel && Capacity(cfg) <= cfg.maxIdle && NoneGone(s.reqs)
        && |s.idle| + Sum(s.pcs, ReturningWeight) <= Capacity(cfg))
  }

  ghost predicate NeverBelow(cfg: Config, calls: Calls, s: State) {
    Inv(cfg, s) && s.count >= 0 && Everyone(s.pcs, Harmless) && Roomy(cfg, calls, s)
  }

  /** Where nothing can be lost to the counter. */
  predicate Gentle(cfg: Config, s: State, pc: Pc) {
    && (Evicts(cfg) ==> s.idle == [] && !HasConn(pc))
    && (pc.PutLockIdle? ==> |s.idle| < cfg.maxIdle)
    && (pc.PutLockReqs? && s.reqs != [] ==> s.reqs[|s.reqs| - 1].Waiting?)
  }

  lemma GentleGet(cfg: Config, s: State, p: nat, env: Env)
    requires p < |s.pcs| && InGet(s.pcs[p]) && Harmless(s.pcs[p]) && Gentle(cfg, s, s.pcs[p])
    ensures var e := GetSection(cfg, s, p, env); Harmless(e.pc) && e.count >= s.count
  {
  }

  lemma GentlePut(cfg: Config, s: State, p: nat, env: Env)
    requires p < |s.pcs| && InPut(s.pcs[p]) && Harmless(s.pcs[p]) && Gentle(cfg, s, s.pcs[p])
    ensures var e := PutSection(cfg, s, p, env); Harmless(e.pc) && e.count >= s.count
  {
  }

  lemma GentleClean(cfg: Config, s: State, p: nat, env: Env)
    requires p < |s.pcs| && InClean(s.pcs[p]) && IndicesOk(s, p) && Harmless(s.pcs[p]) && Gentle(cfg, s, s.pcs[p])
    ensures var e := CleanSection(cfg, s, p, env); Harmless(e.pc) && e.count >= s.count
  {
  }

  lemma GentleEffect(cfg: Config, s: State, m: Move)
    requires Enabled(s, m) && Harmless(s.pcs[m.p]) && Gentle(cfg, s, s.pcs[m.p])
    ensures var e := EffectOf(cfg, s, m);
            Harmless(e.pc) && (e.count >= s.count || e.count == 0) && (e.wake.WakeUp? ==> Harmless(e.wake.pc))
  {
    if m.action.Run? {
      if InGet(s.pcs[m.p]) {
        GentleGet(cfg, s, m.p, m.action.env);
      } else if InPut(s.pcs[m.p]) {
        GentlePut(cfg, s, m.p, m.action.env);
      } else if InClean(s.pcs[m.p]) {
        GentleClean(cfg, s, m.p, m.action.env);
      }
    }
  }

  lemma RoomyIsGentle(cfg: Config, calls: Calls, s: State, p: nat)
    requires NeverBelow(cfg, calls, s) && p < |s.pcs|
    ensures Gentle(cfg, s, s.pcs[p])
  {
    if Capacity(cfg) == 0 && s.births == [] {
      NothingAnywhere(s);
    } else {
      SumAtLeast(s.pcs, ReturningWeight, p);
    }
  }

  lemma NothingAnywhere(s: State)
    requires BirthInv(s) && s.births == []
    ensures s.idle == [] && forall p :: 0 <= p < |s.pcs| ==> !HasConn(s.pcs[p])
  {
    assert s.idle != [] ==> Known(s, s.idle[0].conn);
  }

  /** In a closed pool no more connections set out for the deque. */
  lemma ReturningMoves(cfg: Config, s: State, m: Move)
    requires Enabled(s, m) && EffectOf(cfg, s, m).closed
    ensures var e := EffectOf(cfg, s, m);
            && |Dequeue(s.idle, e.idle)| + ReturningWeight(e.pc) <= |s.idle| + ReturningWeight(s.pcs[m.p])
            && (e.wake.WakeUp? ==> ReturningWeight(e.wake.pc) == 0)
  {
  }

  lemma OpenRoom(cfg: Config, s: State)
    requires Inv(cfg, s) && !s.closed
    ensures |s.idle| + Sum(s.pcs, ReturningWeight) <= Capacity(cfg)
  {
    SumMonotone(s.pcs, ReturningWeight, Weight);
  }

  lemma RoomStep(cfg: Config, s: State, m: Move)
    requires Inv(cfg, s) && Enabled(s, m)
    requires |s.idle| + Sum(s.pcs, ReturningWeight) <= Capacity(cfg)
    ensures var s' := Step(cfg, s, m); |s'.idle| + Sum(s'.pcs, ReturningWeight) <= Capacity(cfg)
  {
    var s', e := Step(cfg, s, m), EffectOf(cfg, s, m);
    if s'.closed {
      ReturningMoves(cfg, s, m);
      HoldsLocks(s, m.p);
      MoveLawful(cfg, s, m);
      WokenIsParked(s, m.p, e);
      SumAfter(s, m.p, e, ReturningWeight);
    } else {
      InvStep(cfg, s, m);
      OpenRoom(cfg, s');
    }
  }

  lemma NoneRetires(cfg: Config, s: State, m: Move)
    requires Enabled(s, m) && !m.action.DropReceiver?
    ensures !EffectOf(cfg, s, m).reqs.RetireReq?
  {
  }

  lemma NoneGoneStep(cfg: Config, calls: Calls, s: State, m: Move)
    requires Enabled(s, m) && Allowed(calls, m) && !calls.cancel && NoneGone(s.reqs)
    ensures NoneGone(Step(cfg, s, m).reqs)
  {
    NoneRetires(cfg, s, m);
    NoneGoneAfter(s.reqs, EffectOf(cfg, s, m).reqs);
  }

  lemma NoneGoneAfter(reqs: seq<Request>, op: ReqOp)
    requires NoneGone(reqs) && !op.RetireReq?
    ensures NoneGone(Restack(reqs, op))
  {
  }

  /** Where the cap is zero nothing is made, not even in a closed pool. */
  lemma NoBirth(cfg: Config, s: State, m: Move)
    requires Enabled(s, m) && Capacity(cfg) == 0 && s.count >= 0
    ensures !EffectOf(cfg, s, m).log.Birth?
  {
    if m.action.Run? && InGet(s.pcs[m.p]) {
      NoneMade(cfg, s, m.p, m.action.env);
    }
  }

  lemma NoneMade(cfg: Config, s: State, p: nat, env: Env)
    requires p < |s.pcs| && InGet(s.pcs[p]) && s.count >= cfg.maxCap
    ensures !GetSection(cfg, s, p, env).log.Birth?
  {
  }

  lemma NeverBelowStep(cfg: Config, calls: Calls, s: State, m: Move)
    requires NeverBelow(cfg, calls, s) && Enabled(s, m) && Allowed(calls, m)
    ensures NeverBelow(cfg, calls, Step(cfg, s, m))
  {
    InvStep(cfg, s, m);
    RoomyIsGentle(cfg, calls, s, m.p);
    GentleEffect(cfg, s, m);
    EveryoneStep(s, m.p, EffectOf(cfg, s, m), Clock(s, m), Harmless);
    if Capacity(cfg) == 0 && s.births == [] {
      NoBirth(cfg, s, m);
    } else {
      NoneGoneStep(cfg, calls, s, m);
      RoomStep(cfg, s, m);
    }
  }

  lemma NeverBelowReachable(cfg: Config, calls: Calls, s: State)
    requires ReachableBy(cfg, calls, s)
    requires Capacity(cfg) == 0 || (!Evicts(cfg) && !calls.cancel && Capacity(cfg) <= cfg.maxIdle)
    ensures s.count >= 0
  {
    var s0 :| Init(cfg, s0) && Leads(Next(cfg, calls), s0, s);
    InvInit(cfg, s0);
    OpenRoom(cfg, s0);
    forall t, m | NeverBelow(cfg, calls, t) && Next(cfg, calls)(t, m).Some?
      ensures NeverBelow(cfg, calls, Next(cfg, calls)(t, m).value)
    {
      NeverBelowStep(cfg, calls, t, m);
    }
    InvariantHolds(Next(cfg, calls), (t: State) => NeverBelow(cfg, calls, t), s0, s);
  }

  function Outside(): Pc -> bool {
    (pc: Pc) => !InRelease(pc)
  }

  ghost predicate Unreleased(s: State) {
    !s.closed && Everyone(s.pcs, Outside())
  }

  lemma UnreleasedStep(cfg: Config, calls: Calls, s: State, m: Move)
    requires Unreleased(s) && !calls.release && Enabled(s, m) && Allowed(calls, m)
    ensures Unreleased(Step(cfg, s, m))
  {
    assert Outside()(s.pcs[m.p]);
    OutsideEffect(cfg, s, m);
    EveryoneStep(s, m.p, EffectOf(cfg, s, m), Clock(s, m), Outside());
  }

  lemma OutsideEffect(cfg: Config, s: State, m: Move)
    requires Enabled(s, m) && !m.action.CallRelease? && !InRelease(s.pcs[m.p])
    ensures var e := EffectOf(cfg, s, m);
            e.closed == s.closed && !InRelease(e.pc) && (e.wake.WakeUp? ==> !InRelease(e.wake.pc))
  {
  }

  lemma StaysOpen(cfg: Config, calls: Calls, s: State)
    requires !calls.release && ReachableBy(cfg, calls, s)
    ensures !s.closed
  {
    var s0 :| Init(cfg, s0) && Leads(Next(cfg, calls), s0, s);
    forall t, m | Unreleased(t) && Next(cfg, calls)(t, m).Some?
      ensures Unreleased(Next(cfg, calls)(t, m).value)
    {
      UnreleasedStep(cfg, calls, t, m);
    }
    InvariantHolds(Next(cfg, calls), (t: State) => Unreleased(t), s0, s);
  }

  /** For every configuration and every set of calls: the counter can go below zero in exactly these
      pools. */
  lemma UnderflowIff(cfg: Config, calls: Calls)
    ensures CanUnderflow(cfg, calls) <==> Underflows(cfg, calls)
  {
    if Underflows(cfg, calls) {
      if calls.cancel {
        UnderflowByCancelling(cfg, calls);
      } else if cfg.maxIdle < Capacity(cfg) {
        UnderflowByOverflow(cfg, calls);
      } else {
        UnderflowByEviction(cfg, calls);
      }
    } else {
      forall s | ReachableBy(cfg, calls, s)
        ensures s.count >= 0
      {
        if calls.release {
          NeverBelowReachable(cfg, calls, s);
        } else {
          StaysOpen(cfg, calls, s);
          ReachableAnyway(cfg, calls, s);
          InvReachable(cfg, s);
        }
      }
    }
  }
}
