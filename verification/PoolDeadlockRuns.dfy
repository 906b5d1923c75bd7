/** Every pool that is not safe can deadlock: the runs that get it there. */
module PoolDeadlockRuns {
  import opened Tally
  import opened Transitions
  import opened PoolMachine
  import opened PoolMoves
  import opened PoolInvariants
  import opened PoolRuns
  import opened PoolDeadlock

  // ---------------------------------------------------------------- the deadlocks

  /** g awaits count and will park, r holds a connection it can put back, all locks are free, nobody
      else is in a call. */
  ghost predicate Poised(cfg: Config, s: State, g: nat, r: nat) {
    && g < |s.pcs| && r < |s.pcs| && s.pcs[g].GetLockCount? && s.pcs[r].Holding?
    && s.count >= cfg.maxCap && s.locks == Unlocked() && !s.closed && s.reqs == []
    && !LifeExpired(cfg, s.pcs[r].conn, s.now)
    && forall p :: 0 <= p < |s.pcs| && p != g ==> !Active(s.pcs[p])
  }

  ghost predicate CanGetStuck(cfg: Config, calls: Calls, s: State) {
    exists t :: Leads(Next(cfg, calls), s, t) && Stuck(t)
  }

  lemma TwoInACycle(s: State, g: nat, r: nat)
    requires g < |s.pcs| && r < |s.pcs| && s.pcs[g].GetLockReqs? && (s.pcs[r].PutOverflow? || s.pcs[r].RelLockCount?)
    requires s.locks.idle == s.locks.reqs == By(r) && s.locks.count == By(g)
    requires forall p :: 0 <= p < |s.pcs| && p != g && p != r ==> !Active(s.pcs[p])
    ensures Stuck(s)
  {
    assert Active(s.pcs[g]);
  }

  /** A full deque: a `put` that overflows waits for count while it holds reqs, a `get` that must
      park waits for reqs while it holds count. */
  lemma StuckByOverflow(cfg: Config, calls: Calls, s: State, g: nat, r: nat)
    requires Poised(cfg, s, g, r) && cfg.maxIdle <= |s.idle|
    ensures CanGetStuck(cfg, calls, s)
  {
    var next := Next(cfg, calls);
    PutToIdle(cfg, calls, s, r);
    var s1 := Here(s, r, PutLockIdle(s.pcs[r].conn)).(locks := s.locks.(reqs := By(r)));
    OverflowMove(cfg, calls, s1, r, Fair(s.now));
    var s2 := Here(s1, r, PutOverflow).(
      closedLog := s1.closedLog + [s1.pcs[r].conn.id], locks := s1.locks.(idle := By(r)));
    LeadsTrans(next, s, s1, s2);
    FullMove(cfg, calls, s2, g, Fair(s.now));
    var s3 := Here(s2, g, GetLockReqs).(locks := s2.locks.(count := By(g)));
    LeadsTrans(next, s, s2, s3);
    TwoInACycle(s3, g, r);
  }

  /** Three callers: g holds count and waits for reqs, r holds reqs and waits for idle, x holds idle
      and waits for count. */
  lemma ThreeInACycle(s: State, g: nat, r: nat, x: nat)
    requires g < |s.pcs| && r < |s.pcs| && x < |s.pcs|
    requires s.locks == Locks(By(x), By(g), Free, By(r))
    requires s.pcs[g].GetLockReqs? && s.pcs[r].PutLockIdle? && (s.pcs[x].GetOwes? || s.pcs[x].CleanLockCount?)
    requires forall p :: 0 <= p < |s.pcs| && p != g && p != r && p != x ==> !Active(s.pcs[p])
    ensures Stuck(s)
  {
    assert Active(s.pcs[g]);
  }

  /** Once r awaits idle and x holds it awaiting count, g closes the cycle. */
  lemma ClosingMove(cfg: Config, calls: Calls, s: State, g: nat, r: nat, x: nat)
    requires g < |s.pcs| && r < |s.pcs| && x < |s.pcs| && g != r && g != x
    requires s.locks == Locks(By(x), Free, Free, By(r)) && s.count >= cfg.maxCap
    requires s.pcs[g].GetLockCount? && s.pcs[r].PutLockIdle? && (s.pcs[x].GetOwes? || s.pcs[x].CleanLockCount?)
    requires forall p :: 0 <= p < |s.pcs| && p != g && p != r && p != x ==> !Active(s.pcs[p])
    ensures CanGetStuck(cfg, calls, s)
  {
    FullMove(cfg, calls, s, g, Fair(s.now));
    ThreeInACycle(Here(s, g, GetLockReqs).(locks := s.locks.(count := By(g))), g, r, x);
  }

  lemma CanGetStuckBefore(cfg: Config, calls: Calls, s: State, t: State)
    requires Leads(Next(cfg, calls), s, t) && CanGetStuck(cfg, calls, t)
    ensures CanGetStuck(cfg, calls, s)
  {
    var u :| Leads(Next(cfg, calls), t, u) && Stuck(u);
    LeadsTrans(Next(cfg, calls), s, t, u);
  }

  /** x's `get` has popped the front of the deque and thrown it away, and awaits count. */
  function Evicting(cfg: Config, s: State, x: nat): State
    requires x < |s.pcs| && s.idle != []
  {
    At(s, x, GetOwes, Late(cfg, s.now).t).(
      idle := s.idle[1..], closedLog := s.closedLog + [s.idle[0].conn.id], locks := s.locks.(idle := By(x)))
  }

  lemma EvictingIs(cfg: Config, s: State, x: nat)
    requires x < |s.pcs| && s.idle != []
    ensures var s1, env := Here(s, x, GetScan).(locks := s.locks.(idle := By(x))), Late(cfg, s.now);
            Discard(At(s1, x, GetOwes, env.t2).(idle := s1.idle[1..]), s.idle[0].conn, true) == Evicting(cfg, s, x)
  {
    assert s.pcs[x := GetScan][x := GetOwes] == s.pcs[x := GetOwes];
  }

  lemma EvictEntry(cfg: Config, calls: Calls, s: State, x: nat)
    requires x < |s.pcs| && s.pcs[x].Ready? && Evicts(cfg)
    requires s.idle != [] && s.idle[0].since <= s.now && s.idle[0].conn.created <= s.now
    requires s.locks.closed.Free? && !s.closed && s.locks.idle.Free?
    ensures Leads(Next(cfg, calls), s, Evicting(cfg, s, x))
  {
    var s1 := Here(s, x, GetScan).(locks := s.locks.(idle := By(x)));
    GetEntry(cfg, calls, s, x);
    LateEvicts(cfg, s.idle[0], s.now);
    ScanEvictMove(cfg, calls, s1, x, Late(cfg, s.now));
    EvictingIs(cfg, s, x);
    LeadsTrans(Next(cfg, calls), s, s1, Evicting(cfg, s, x));
  }

  lemma StuckByEviction(cfg: Config, calls: Calls, s: State, g: nat, r: nat, x: nat)
    requires Poised(cfg, s, g, r) && Evicts(cfg) && x < |s.pcs| && s.pcs[x].Ready?
    requires s.idle != [] && s.idle[0].since <= s.now && s.idle[0].conn.created <= s.now
    ensures CanGetStuck(cfg, calls, s)
  {
    PutToIdle(cfg, calls, s, r);
    var s1 := Here(s, r, PutLockIdle(s.pcs[r].conn)).(locks := s.locks.(reqs := By(r)));
    EvictEntry(cfg, calls, s1, x);
    ClosingMove(cfg, calls, Evicting(cfg, s1, x), g, r, x);
    CanGetStuckBefore(cfg, calls, s1, Evicting(cfg, s1, x));
    CanGetStuckBefore(cfg, calls, s, s1);
  }

  lemma StuckByClean(cfg: Config, calls: Calls, s: State, g: nat, r: nat, x: nat)
    requires calls.clean && Poised(cfg, s, g, r) && x < |s.pcs| && s.pcs[x].Ready?
    ensures CanGetStuck(cfg, calls, s)
  {
    PutToIdle(cfg, calls, s, r);
    var s1 := Here(s, r, PutLockIdle(s.pcs[r].conn)).(locks := s.locks.(reqs := By(r)));
    CleanEntry(cfg, calls, s1, x);
    var s2 := Here(s1, x, CleanLockCount).(locks := s1.locks.(idle := By(x)));
    ClosingMove(cfg, calls, s2, g, r, x);
    CanGetStuckBefore(cfg, calls, s1, s2);
    CanGetStuckBefore(cfg, calls, s, s1);
  }

  /** `release` holds reqs and waits for count, the `get` holds count and waits for reqs. */
  lemma StuckByRelease(cfg: Config, calls: Calls, s: State, g: nat, x: nat)
    requires calls.release && g < |s.pcs| && x < |s.pcs| && s.pcs[g].GetLockCount? && s.pcs[x].Ready?
    requires s.count >= cfg.maxCap && s.locks == Unlocked() && s.idle == [] && s.reqs == []
    requires forall p :: 0 <= p < |s.pcs| && p != g ==> !Active(s.pcs[p])
    ensures CanGetStuck(cfg, calls, s)
  {
    ReleaseEntry(cfg, calls, s, x);
    var s1 := Here(s, x, RelLockCount).(closed := true, locks := Locks(By(x), Free, By(x), By(x)));
    FullMove(cfg, calls, s1, g, Fair(s.now));
    TwoInACycle(Here(s1, g, GetLockReqs).(locks := s1.locks.(count := By(g))), g, x);
    CanGetStuckBefore(cfg, calls, s, s1);
  }

  lemma NotDeadlockFree(cfg: Config, calls: Calls, n: nat, j: nat)
    requires j <= Capacity(cfg) < n && j <= cfg.maxIdle
    requires CanGetStuck(cfg, calls, GaveBack(cfg, n, j))
    ensures !DeadlockFree(cfg, calls)
  {
    TookIsInit(cfg, n);
    GiveBack(cfg, calls, n, j);
    CanGetStuckBefore(cfg, calls, Took(cfg, n, 0), GaveBack(cfg, n, j));
    var t :| Leads(Next(cfg, calls), Took(cfg, n, 0), t) && Stuck(t);
    assert ReachableBy(cfg, calls, t);
  }

  lemma UnsafeDeadlocks(cfg: Config, calls: Calls)
    requires !Safe(cfg, calls)
    ensures !DeadlockFree(cfg, calls)
  {
    var g := Capacity(cfg);
    var n := g + 2;
    if calls.release {
      StuckByRelease(cfg, calls, GaveBack(cfg, n, 0), g, g + 1);
      NotDeadlockFree(cfg, calls, n, 0);
    } else if calls.clean {
      StuckByClean(cfg, calls, GaveBack(cfg, n, 0), g, 0, g + 1);
      NotDeadlockFree(cfg, calls, n, 0);
    } else if cfg.maxIdle < g {
      StuckByOverflow(cfg, calls, GaveBack(cfg, n, cfg.maxIdle), g, cfg.maxIdle);
      NotDeadlockFree(cfg, calls, n, cfg.maxIdle);
    } else {
      StuckByEviction(cfg, calls, GaveBack(cfg, n, 1), g, 1, 0);
      NotDeadlockFree(cfg, calls, n, 1);
    }
  }

  /** Exactly the safe pools are free of deadlock. */
  lemma DeadlockFreeIffSafe(cfg: Config, calls: Calls)
    ensures DeadlockFree(cfg, calls) <==> Safe(cfg, calls)
  {
    if Safe(cfg, calls) {
      SafeIsDeadlockFree(cfg, calls);
    } else {
      UnsafeDeadlocks(cfg, calls);
    }
  }
}
