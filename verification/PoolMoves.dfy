/** The sections of PoolMachine one at a time: from a program point, under a condition, to the state
    it leaves.  The runs of PoolDeadlockRuns and the operations of Pool are strung together from these. */
module PoolMoves {
  import opened Tally
  import opened Transitions
  import opened PoolMachine

  /** p has moved to pc and the clock shows the last reading. */
  function At(s: State, p: nat, pc: Pc, now: nat): State
    requires p < |s.pcs|
  {
    s.(pcs := s.pcs[p := pc], now := now)
  }

  /** p has moved to pc at once. */
  function Here(s: State, p: nat, pc: Pc): State
    requires p < |s.pcs|
  {
    At(s, p, pc, s.now)
  }

  function Unlocked(): Locks {
    Locks(Free, Free, Free, Free)
  }

  /** An environment at time t in which everything succeeds. */
  function Fair(t: nat): Env {
    Env(t, t, true, true, true)
  }

  /** Calling the closer on a connection that is no longer in the deque. */
  function Discard(s: State, c: Conn, closerOk: bool): State {
    if closerOk then s.(closedLog := s.closedLog + [c.id]) else s.(lost := s.lost + [c.id])
  }

  predicate Timely(s: State, env: Env) {
    s.now <= env.t <= env.t2
  }

  lemma One(cfg: Config, calls: Calls, s: State, m: Move)
    requires Enabled(s, m) && Allowed(calls, m)
    ensures Leads(Next(cfg, calls), s, Step(cfg, s, m))
  {
    LeadsRefl(Next(cfg, calls), s);
    LeadsStep(Next(cfg, calls), s, s, m);
  }

  lemma CallMove(cfg: Config, calls: Calls, s: State, p: nat, action: Action, pc: Pc)
    requires p < |s.pcs| && Allowed(calls, Move(p, action))
    requires match action
             case CallGet => s.pcs[p].Ready? && pc == GetEnter
             case CallPut => s.pcs[p].Holding? && pc == PutEnter(s.pcs[p].conn)
             case CallClean => s.pcs[p].Ready? && pc == CleanEnter
             case CallRelease => s.pcs[p].Ready? && pc == RelEnter
             case _ => false
    ensures Leads(Next(cfg, calls), s, At(s, p, pc, s.now))
  {
    One(cfg, calls, s, Move(p, action));
  }

  lemma GetEnterMove(cfg: Config, calls: Calls, s: State, p: nat, env: Env)
    requires p < |s.pcs| && s.pcs[p].GetEnter? && Timely(s, env)
    requires s.locks.closed.Free? && !s.closed
    ensures Leads(Next(cfg, calls), s, At(s, p, GetLockIdle, env.t2))
  {
    One(cfg, calls, s, Move(p, Run(env)));
  }

  lemma GetRefusedMove(cfg: Config, calls: Calls, s: State, p: nat, env: Env)
    requires p < |s.pcs| && s.pcs[p].GetEnter? && Timely(s, env)
    requires s.locks.closed.Free? && s.closed
    ensures Leads(Next(cfg, calls), s, At(s, p, Ready, env.t2))
  {
    One(cfg, calls, s, Move(p, Run(env)));
  }

  lemma GetLockIdleMove(cfg: Config, calls: Calls, s: State, p: nat, env: Env)
    requires p < |s.pcs| && s.pcs[p].GetLockIdle? && Timely(s, env)
    requires s.locks.idle.Free?
    ensures Leads(Next(cfg, calls), s, At(s, p, GetScan, env.t2).(locks := s.locks.(idle := By(p))))
  {
    One(cfg, calls, s, Move(p, Run(env)));
  }

  lemma ScanTakeMove(cfg: Config, calls: Calls, s: State, p: nat, env: Env)
    requires p < |s.pcs| && s.pcs[p].GetScan? && Timely(s, env)
    requires s.idle != [] && !Evicted(cfg, s.idle[0], env)
    ensures Leads(Next(cfg, calls), s,
              At(s, p, Holding(s.idle[0].conn, env.t2), env.t2).(idle := s.idle[1..], locks := s.locks.(idle := Free)))
  {
    One(cfg, calls, s, Move(p, Run(env)));
  }

  lemma ScanEmptyMove(cfg: Config, calls: Calls, s: State, p: nat, env: Env)
    requires p < |s.pcs| && s.pcs[p].GetScan? && Timely(s, env)
    requires s.idle == []
    ensures Leads(Next(cfg, calls), s, At(s, p, GetLockCount, env.t2).(locks := s.locks.(idle := Free)))
  {
    One(cfg, calls, s, Move(p, Run(env)));
  }

  lemma ScanEvictMove(cfg: Config, calls: Calls, s: State, p: nat, env: Env)
    requires p < |s.pcs| && s.pcs[p].GetScan? && Timely(s, env)
    requires s.idle != [] && Evicted(cfg, s.idle[0], env)
    ensures Leads(Next(cfg, calls), s,
              Discard(At(s, p, GetOwes, env.t2).(idle := s.idle[1..]), s.idle[0].conn, env.closerOk))
  {
    One(cfg, calls, s, Move(p, Run(env)));
  }

  lemma GetOwesMove(cfg: Config, calls: Calls, s: State, p: nat, env: Env)
    requires p < |s.pcs| && s.pcs[p].GetOwes? && Timely(s, env)
    requires s.locks.count.Free?
    ensures Leads(Next(cfg, calls), s, At(s, p, GetScan, env.t2).(count := s.count - 1))
  {
    One(cfg, calls, s, Move(p, Run(env)));
  }

  /** p's `get` has made a connection. */
  function Made(s: State, p: nat, now: nat): State
    requires p < |s.pcs|
  {
    At(s, p, Holding(Conn(|s.births|, now), now), now).(count := s.count + 1, births := s.births + [now])
  }

  lemma CreateMove(cfg: Config, calls: Calls, s: State, p: nat, env: Env)
    requires p < |s.pcs| && s.pcs[p].GetLockCount? && Timely(s, env)
    requires s.locks.count.Free? && s.count < cfg.maxCap && env.factoryOk
    ensures Leads(Next(cfg, calls), s, Made(s, p, env.t2))
  {
    assert Step(cfg, s, Move(p, Run(env))) == Made(s, p, env.t2);
    One(cfg, calls, s, Move(p, Run(env)));
  }

  lemma FactoryFailsMove(cfg: Config, calls: Calls, s: State, p: nat, env: Env)
    requires p < |s.pcs| && s.pcs[p].GetLockCount? && Timely(s, env)
    requires s.locks.count.Free? && s.count < cfg.maxCap && !env.factoryOk
    ensures Leads(Next(cfg, calls), s, At(s, p, Ready, env.t2))
  {
    One(cfg, calls, s, Move(p, Run(env)));
  }

  lemma FullMove(cfg: Config, calls: Calls, s: State, p: nat, env: Env)
    requires p < |s.pcs| && s.pcs[p].GetLockCount? && Timely(s, env)
    requires s.locks.count.Free? && s.count >= cfg.maxCap
    ensures Leads(Next(cfg, calls), s, At(s, p, GetLockReqs, env.t2).(locks := s.locks.(count := By(p))))
  {
    One(cfg, calls, s, Move(p, Run(env)));
  }

  lemma ParkMove(cfg: Config, calls: Calls, s: State, p: nat, env: Env)
    requires p < |s.pcs| && s.pcs[p].GetLockReqs? && Timely(s, env)
    requires s.locks.reqs.Free?
    ensures Leads(Next(cfg, calls), s,
              At(s, p, Parked, env.t2).(reqs := s.reqs + [Waiting(p)], locks := s.locks.(count := Free)))
  {
    One(cfg, calls, s, Move(p, Run(env)));
  }

  lemma PutRefusedMove(cfg: Config, calls: Calls, s: State, p: nat, env: Env)
    requires p < |s.pcs| && s.pcs[p].PutEnter? && Timely(s, env)
    requires s.locks.closed.Free? && s.closed
    ensures Leads(Next(cfg, calls), s, At(s, p, Ready, env.t2).(lost := s.lost + [s.pcs[p].conn.id]))
  {
    One(cfg, calls, s, Move(p, Run(env)));
  }

  lemma PutEnterMove(cfg: Config, calls: Calls, s: State, p: nat, env: Env)
    requires p < |s.pcs| && s.pcs[p].PutEnter? && Timely(s, env)
    requires s.locks.closed.Free? && !s.closed && !LifeExpired(cfg, s.pcs[p].conn, env.t2)
    ensures Leads(Next(cfg, calls), s, At(s, p, PutLockReqs(s.pcs[p].conn, env.t2), env.t2))
  {
    One(cfg, calls, s, Move(p, Run(env)));
  }

  lemma PutExpiredMove(cfg: Config, calls: Calls, s: State, p: nat, env: Env)
    requires p < |s.pcs| && s.pcs[p].PutEnter? && Timely(s, env)
    requires s.locks.closed.Free? && !s.closed && LifeExpired(cfg, s.pcs[p].conn, env.t2)
    ensures Leads(Next(cfg, calls), s, Discard(At(s, p, PutOwes, env.t2), s.pcs[p].conn, env.closerOk))
  {
    One(cfg, calls, s, Move(p, Run(env)));
  }

  lemma PutOwesMove(cfg: Config, calls: Calls, s: State, p: nat, env: Env)
    requires p < |s.pcs| && s.pcs[p].PutOwes? && Timely(s, env)
    requires s.locks.count.Free?
    ensures Leads(Next(cfg, calls), s, At(s, p, Ready, env.t2).(count := s.count - 1))
  {
    One(cfg, calls, s, Move(p, Run(env)));
  }

  lemma PutLockReqsMove(cfg: Config, calls: Calls, s: State, p: nat, env: Env)
    requires p < |s.pcs| && s.pcs[p].PutLockReqs? && Timely(s, env)
    requires s.locks.reqs.Free? && s.reqs == []
    ensures Leads(Next(cfg, calls), s, At(s, p, PutLockIdle(s.pcs[p].conn), env.t2).(locks := s.locks.(reqs := By(p))))
  {
    One(cfg, calls, s, Move(p, Run(env)));
  }

  lemma PutGoneMove(cfg: Config, calls: Calls, s: State, p: nat, env: Env)
    requires p < |s.pcs| && s.pcs[p].PutLockReqs? && Timely(s, env)
    requires s.locks.reqs.Free? && s.reqs != [] && s.reqs[|s.reqs| - 1].Gone?
    ensures Leads(Next(cfg, calls), s,
              Discard(At(s, p, PutOwes, env.t2).(reqs := s.reqs[..|s.reqs| - 1]), s.pcs[p].conn, env.closerOk))
  {
    One(cfg, calls, s, Move(p, Run(env)));
  }

  lemma PushMove(cfg: Config, calls: Calls, s: State, p: nat, env: Env)
    requires p < |s.pcs| && s.pcs[p].PutLockIdle? && Timely(s, env)
    requires s.locks.idle.Free? && |s.idle| < cfg.maxIdle
    ensures Leads(Next(cfg, calls), s,
              At(s, p, Ready, env.t2).(
                idle := s.idle + [IdleConn(s.pcs[p].conn, env.t2)], locks := s.locks.(reqs := Free)))
  {
    One(cfg, calls, s, Move(p, Run(env)));
  }

  lemma OverflowMove(cfg: Config, calls: Calls, s: State, p: nat, env: Env)
    requires p < |s.pcs| && s.pcs[p].PutLockIdle? && Timely(s, env)
    requires s.locks.idle.Free? && |s.idle| >= cfg.maxIdle && env.closerOk
    ensures Leads(Next(cfg, calls), s,
              At(s, p, PutOverflow, env.t2).(
                closedLog := s.closedLog + [s.pcs[p].conn.id], locks := s.locks.(idle := By(p))))
  {
    One(cfg, calls, s, Move(p, Run(env)));
  }

  lemma OverflowFailsMove(cfg: Config, calls: Calls, s: State, p: nat, env: Env)
    requires p < |s.pcs| && s.pcs[p].PutLockIdle? && Timely(s, env)
    requires s.locks.idle.Free? && |s.idle| >= cfg.maxIdle && !env.closerOk
    ensures Leads(Next(cfg, calls), s,
              At(s, p, Ready, env.t2).(
                lost := s.lost + [s.pcs[p].conn.id], drift := s.drift + 1, locks := s.locks.(reqs := Free)))
  {
    assert PutSection(cfg, s, p, env) ==
           Go(s, Ready).(log := Lose(s.pcs[p].conn.id), drift := s.drift + 1, locks := s.locks.(reqs := Free));
    One(cfg, calls, s, Move(p, Run(env)));
  }

  lemma OverflowDoneMove(cfg: Config, calls: Calls, s: State, p: nat, env: Env)
    requires p < |s.pcs| && s.pcs[p].PutOverflow? && Timely(s, env)
    requires s.locks.count.Free?
    ensures Leads(Next(cfg, calls), s,
              At(s, p, Ready, env.t2).(count := s.count - 1, locks := s.locks.(idle := Free, reqs := Free)))
  {
    One(cfg, calls, s, Move(p, Run(env)));
  }

  lemma CleanEnterMove(cfg: Config, calls: Calls, s: State, p: nat, env: Env)
    requires p < |s.pcs| && s.pcs[p].CleanEnter? && Timely(s, env)
    requires s.locks.closed.Free? && !s.closed
    ensures Leads(Next(cfg, calls), s, At(s, p, CleanLockIdle, env.t2))
  {
    One(cfg, calls, s, Move(p, Run(env)));
  }

  lemma CleanRefusedMove(cfg: Config, calls: Calls, s: State, p: nat, env: Env)
    requires p < |s.pcs| && s.pcs[p].CleanEnter? && Timely(s, env)
    requires s.locks.closed.Free? && s.closed
    ensures Leads(Next(cfg, calls), s, At(s, p, Ready, env.t2))
  {
    One(cfg, calls, s, Move(p, Run(env)));
  }

  lemma CleanLockIdleMove(cfg: Config, calls: Calls, s: State, p: nat, env: Env)
    requires p < |s.pcs| && s.pcs[p].CleanLockIdle? && Timely(s, env)
    requires s.locks.idle.Free?
    ensures Leads(Next(cfg, calls), s, At(s, p, CleanLockCount, env.t2).(locks := s.locks.(idle := By(p))))
  {
    One(cfg, calls, s, Move(p, Run(env)));
  }

  lemma CleanLockCountMove(cfg: Config, calls: Calls, s: State, p: nat, env: Env)
    requires p < |s.pcs| && s.pcs[p].CleanLockCount? && Timely(s, env)
    requires s.locks.count.Free?
    ensures Leads(Next(cfg, calls), s,
              At(s, p, CleanLoop(|s.idle|, 0, s.idle, env.t2), env.t2).(locks := s.locks.(count := By(p))))
  {
    One(cfg, calls, s, Move(p, Run(env)));
  }

  lemma RelEnterMove(cfg: Config, calls: Calls, s: State, p: nat, env: Env)
    requires p < |s.pcs| && s.pcs[p].RelEnter? && Timely(s, env)
    requires s.locks.closed.Free?
    ensures Leads(Next(cfg, calls), s,
              At(s, p, RelLockIdle, env.t2).(closed := true, locks := s.locks.(closed := By(p))))
  {
    One(cfg, calls, s, Move(p, Run(env)));
  }

  lemma RelLockIdleMove(cfg: Config, calls: Calls, s: State, p: nat, env: Env)
    requires p < |s.pcs| && s.pcs[p].RelLockIdle? && Timely(s, env)
    requires s.locks.idle.Free?
    ensures Leads(Next(cfg, calls), s, At(s, p, RelClose, env.t2).(locks := s.locks.(idle := By(p))))
  {
    One(cfg, calls, s, Move(p, Run(env)));
  }

  lemma RelCloseMove(cfg: Config, calls: Calls, s: State, p: nat, env: Env)
    requires p < |s.pcs| && s.pcs[p].RelClose? && Timely(s, env)
    requires s.idle != [] && env.closerOk
    ensures Leads(Next(cfg, calls), s,
              At(s, p, RelClose, env.t2).(idle := s.idle[1..], closedLog := s.closedLog + [s.idle[0].conn.id]))
  {
    One(cfg, calls, s, Move(p, Run(env)));
  }

  lemma RelCloseFailsMove(cfg: Config, calls: Calls, s: State, p: nat, env: Env)
    requires p < |s.pcs| && s.pcs[p].RelClose? && Timely(s, env)
    requires s.idle != [] && !env.closerOk
    ensures Leads(Next(cfg, calls), s,
              At(s, p, Ready, env.t2).(
                idle := s.idle[1..], lost := s.lost + [s.idle[0].conn.id],
                locks := s.locks.(idle := Free, closed := Free)))
  {
    One(cfg, calls, s, Move(p, Run(env)));
  }

  lemma RelEmptyMove(cfg: Config, calls: Calls, s: State, p: nat, env: Env)
    requires p < |s.pcs| && s.pcs[p].RelClose? && Timely(s, env)
    requires s.idle == []
    ensures Leads(Next(cfg, calls), s, At(s, p, RelLockReqs, env.t2))
  {
    One(cfg, calls, s, Move(p, Run(env)));
  }

  lemma RelLockReqsMove(cfg: Config, calls: Calls, s: State, p: nat, env: Env)
    requires p < |s.pcs| && s.pcs[p].RelLockReqs? && Timely(s, env)
    requires s.locks.reqs.Free?
    ensures Leads(Next(cfg, calls), s, At(s, p, RelDrain, env.t2).(locks := s.locks.(reqs := By(p))))
  {
    One(cfg, calls, s, Move(p, Run(env)));
  }

  lemma RelDrainGoneMove(cfg: Config, calls: Calls, s: State, p: nat, env: Env)
    requires p < |s.pcs| && s.pcs[p].RelDrain? && Timely(s, env)
    requires s.reqs != [] && s.reqs[0].Gone?
    ensures Leads(Next(cfg, calls), s, At(s, p, RelDrain, env.t2).(reqs := s.reqs[1..]))
  {
    One(cfg, calls, s, Move(p, Run(env)));
  }

  lemma RelDrainedMove(cfg: Config, calls: Calls, s: State, p: nat, env: Env)
    requires p < |s.pcs| && s.pcs[p].RelDrain? && Timely(s, env)
    requires s.reqs == []
    ensures Leads(Next(cfg, calls), s, At(s, p, RelLockCount, env.t2))
  {
    One(cfg, calls, s, Move(p, Run(env)));
  }

  lemma RelDoneMove(cfg: Config, calls: Calls, s: State, p: nat, env: Env)
    requires p < |s.pcs| && s.pcs[p].RelLockCount? && Timely(s, env)
    requires s.locks.count.Free?
    ensures Leads(Next(cfg, calls), s,
              At(s, p, Ready, env.t2).(count := 0, locks := s.locks.(idle := Free, reqs := Free, closed := Free)))
  {
    One(cfg, calls, s, Move(p, Run(env)));
  }

  /** The clean-up has counted out what it dropped. */
  function CleanDone(s: State, p: nat, now: nat): State
    requires p < |s.pcs| && s.pcs[p].CleanLoop?
  {
    At(s, p, Ready, now).(count := s.count - s.pcs[p].removed, locks := s.locks.(idle := Free, count := Free))
  }

  lemma CleanDoneMove(cfg: Config, calls: Calls, s: State, p: nat, env: Env)
    requires p < |s.pcs| && s.pcs[p].CleanLoop? && Timely(s, env)
    requires s.pcs[p].next == 0
    ensures Leads(Next(cfg, calls), s, CleanDone(s, p, env.t2))
  {
    assert Step(cfg, s, Move(p, Run(env))) == CleanDone(s, p, env.t2);
    One(cfg, calls, s, Move(p, Run(env)));
  }

  lemma CleanKeepMove(cfg: Config, calls: Calls, s: State, p: nat, env: Env)
    requires p < |s.pcs| && s.pcs[p].CleanLoop? && Timely(s, env)
    requires 0 < s.pcs[p].next <= |s.idle| && !IdleExpired(cfg, s.idle[s.pcs[p].next - 1], env.t2)
    ensures Leads(Next(cfg, calls), s,
              At(s, p, CleanLoop(s.pcs[p].next - 1, s.pcs[p].removed, s.pcs[p].orig, s.pcs[p].began), env.t2))
  {
    One(cfg, calls, s, Move(p, Run(env)));
  }

  /** The clean-up has dropped the connection it looked at. */
  function CleanRemoved(s: State, p: nat, now: nat): State
    requires p < |s.pcs| && s.pcs[p].CleanLoop? && 0 < s.pcs[p].next <= |s.idle|
  {
    var CleanLoop(next, removed, orig, began) := s.pcs[p];
    At(s, p, CleanLoop(next - 1, removed + 1, orig, began), now).(
      idle := s.idle[..next - 1] + s.idle[next..], closedLog := s.closedLog + [s.idle[next - 1].conn.id])
  }

  lemma CleanRemoveMove(cfg: Config, calls: Calls, s: State, p: nat, env: Env)
    requires p < |s.pcs| && s.pcs[p].CleanLoop? && Timely(s, env)
    requires 0 < s.pcs[p].next <= |s.idle| && IdleExpired(cfg, s.idle[s.pcs[p].next - 1], env.t2) && env.closerOk
    ensures Leads(Next(cfg, calls), s, CleanRemoved(s, p, env.t2))
  {
    assert Step(cfg, s, Move(p, Run(env))) == CleanRemoved(s, p, env.t2);
    One(cfg, calls, s, Move(p, Run(env)));
  }

  /** The closer has failed on it. */
  function CleanFailed(s: State, p: nat, now: nat): State
    requires p < |s.pcs| && s.pcs[p].CleanLoop?
  {
    At(s, p, Ready, now).(drift := s.drift + s.pcs[p].removed, locks := s.locks.(idle := Free, count := Free))
  }

  lemma CleanFailsMove(cfg: Config, calls: Calls, s: State, p: nat, env: Env)
    requires p < |s.pcs| && s.pcs[p].CleanLoop? && Timely(s, env)
    requires 0 < s.pcs[p].next <= |s.idle| && IdleExpired(cfg, s.idle[s.pcs[p].next - 1], env.t2) && !env.closerOk
    ensures Leads(Next(cfg, calls), s, CleanFailed(s, p, env.t2))
  {
    assert Step(cfg, s, Move(p, Run(env))) == CleanFailed(s, p, env.t2);
    One(cfg, calls, s, Move(p, Run(env)));
  }

  lemma ServeMove(cfg: Config, calls: Calls, s: State, p: nat, w: nat, env: Env)
    requires p < |s.pcs| && s.pcs[p].PutLockReqs? && Timely(s, env) && s.locks.reqs.Free?
    requires s.reqs != [] && s.reqs[|s.reqs| - 1] == Waiting(w) && w < |s.pcs|
    ensures Leads(Next(cfg, calls), s,
              s.(reqs := s.reqs[..|s.reqs| - 1], now := env.t2,
                 pcs := s.pcs[w := Served(s.pcs[p].conn, s.pcs[p].checkedAt)][p := Ready]))
  {
    One(cfg, calls, s, Move(p, Run(env)));
  }

  lemma RelDrainMove(cfg: Config, calls: Calls, s: State, p: nat, w: nat, env: Env)
    requires p < |s.pcs| && s.pcs[p].RelDrain? && Timely(s, env)
    requires s.reqs != [] && s.reqs[0] == Waiting(w) && w < |s.pcs| && w != p
    ensures Leads(Next(cfg, calls), s,
              s.(reqs := s.reqs[1..], now := env.t2, pcs := s.pcs[w := Refused][p := RelDrain]))
  {
    One(cfg, calls, s, Move(p, Run(env)));
  }

  /** A caller's future is dropped while it waits. */
  lemma DropMove(cfg: Config, calls: Calls, s: State, p: nat)
    requires p < |s.pcs| && s.pcs[p].Parked? && calls.cancel
    ensures Leads(Next(cfg, calls), s, Here(s, p, Ready).(reqs := Restack(s.reqs, RetireReq(p))))
  {
    One(cfg, calls, s, Move(p, DropReceiver));
  }

  /** What a caller has when it took what came through its oneshot. */
  function AfterOneshot(pc: Pc): Pc {
    if pc.Served? then Holding(pc.conn, pc.checkedAt) else Ready
  }

  lemma ReceiveMove(cfg: Config, calls: Calls, s: State, p: nat, env: Env)
    requires p < |s.pcs| && (s.pcs[p].Served? || s.pcs[p].Refused?) && Timely(s, env)
    ensures Leads(Next(cfg, calls), s, At(s, p, AfterOneshot(s.pcs[p]), env.t2))
  {
    One(cfg, calls, s, Move(p, Run(env)));
  }

  /** Or after it was served: then its connection is lost. */
  lemma DropServedMove(cfg: Config, calls: Calls, s: State, p: nat)
    requires p < |s.pcs| && s.pcs[p].Served? && calls.cancel
    ensures Leads(Next(cfg, calls), s,
              Here(s, p, Ready).(lost := s.lost + [s.pcs[p].conn.id], drift := s.drift + 1))
  {
    One(cfg, calls, s, Move(p, DropReceiver));
  }
}
