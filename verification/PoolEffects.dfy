/** What every single move of the pool's callers does, as one list of facts about its effect.
    The invariants of PoolInvariants follow from these facts alone. */
module PoolEffects {
  import opened PoolMachine

  // ---------------------------------------------------------------- program points

  predicate HoldsIdle(pc: Pc) {
    pc.GetScan? || pc.GetOwes? || pc.PutOverflow? || pc.CleanLockCount? || pc.CleanLoop? ||
    pc.RelClose? || pc.RelLockReqs? || pc.RelDrain? || pc.RelLockCount?
  }

  predicate HoldsCount(pc: Pc) {
    pc.GetLockReqs? || pc.CleanLoop?
  }

  predicate HoldsReqs(pc: Pc) {
    pc.PutLockIdle? || pc.PutOverflow? || pc.RelDrain? || pc.RelLockCount?
  }

  predicate HoldsClosed(pc: Pc) {
    pc.RelLockIdle? || pc.RelClose? || pc.RelLockReqs? || pc.RelDrain? || pc.RelLockCount?
  }

  /** The caller, its call or its oneshot has a connection in hand. */
  predicate HasConn(pc: Pc) {
    pc.Holding? || pc.Served? || pc.PutEnter? || pc.PutLockReqs? || pc.PutLockIdle?
  }

  /** The connection was looked at on its way out of the pool, at time checkedAt. */
  predicate Checked(pc: Pc) {
    pc.Holding? || pc.Served? || pc.PutLockReqs?
  }

  /** How often the connection `id` is in hand here: 0 or 1. */
  function Carries(pc: Pc, id: ConnId): nat {
    if HasConn(pc) && pc.conn.id == id then 1 else 0
  }

  /** Connections held by a caller between `get` and `put`. */
  function HeldWeight(pc: Pc): nat {
    if pc.Holding? then 1 else 0
  }

  /** Connections in hand inside a running call, or already discarded there with the decrement
      still to come. */
  function InHandWeight(pc: Pc): nat {
    if pc.Served? || pc.PutEnter? || pc.PutLockReqs? || pc.PutLockIdle? then 1
    else if pc.GetOwes? || pc.PutOwes? || pc.PutOverflow? then 1
    else if pc.CleanLoop? then pc.removed
    else 0
  }

  function Weight(pc: Pc): nat {
    HeldWeight(pc) + InHandWeight(pc)
  }

  // ---------------------------------------------------------------- the facts

  /** p takes or gives up a lock exactly as its new program point says. */
  ghost predicate LockMoves(lock: Lock, lock': Lock, p: nat, held: bool, holds: bool) {
    && (held ==> lock == By(p))
    && if holds then lock' == By(p) && (lock.Free? || held)
       else lock' == if held then Free else lock
  }

  ghost predicate LocksMove(s: State, p: nat, e: Effect)
    requires p < |s.pcs|
  {
    && LockMoves(s.locks.idle, e.locks.idle, p, HoldsIdle(s.pcs[p]), HoldsIdle(e.pc))
    && LockMoves(s.locks.count, e.locks.count, p, HoldsCount(s.pcs[p]), HoldsCount(e.pc))
    && LockMoves(s.locks.reqs, e.locks.reqs, p, HoldsReqs(s.pcs[p]), HoldsReqs(e.pc))
    && LockMoves(s.locks.closed, e.locks.closed, p, HoldsClosed(s.pcs[p]), HoldsClosed(e.pc))
    && (e.closed <==> s.closed || e.locks.closed == By(p))
  }

  /** A caller parks, leaves its parking place or is woken exactly as the waiter stack changes. */
  ghost predicate StackMoves(s: State, p: nat, e: Effect)
    requires p < |s.pcs|
  {
    && (e.wake.WakeUp? ==> e.wake.waiter < |s.pcs| && (e.wake.pc.Served? || e.wake.pc.Refused?))
    && match e.reqs
       case KeepReqs => e.wake == NoWake && !s.pcs[p].Parked? && !e.pc.Parked?
       case PushReq(w) => e.wake == NoWake && w == p && !s.pcs[w].Parked? && e.pc.Parked?
       case PopReq =>
         && s.reqs != [] && !s.pcs[p].Parked? && !e.pc.Parked?
         && (match s.reqs[|s.reqs| - 1]
             case Gone => e.wake == NoWake
             case Waiting(w) => e.wake.WakeUp? && e.wake.waiter == w && e.wake.pc.Served?)
       case ShiftReq =>
         && s.reqs != [] && !s.pcs[p].Parked? && !e.pc.Parked?
         && (match s.reqs[0]
             case Gone => e.wake == NoWake
             case Waiting(w) => e.wake.WakeUp? && e.wake.waiter == w && e.wake.pc.Refused?)
       case RetireReq(w) => e.wake == NoWake && w == p && s.pcs[w].Parked? && !e.pc.Parked?
  }

  /** The deque changes only under its lock, grows only below max_idle, and is stamped at return. */
  ghost predicate IdleMoves(cfg: Config, s: State, p: nat, e: Effect, now: nat)
    requires p < |s.pcs|
  {
    match e.idle
    case KeepIdle => true
    case PopFront => s.idle != [] && HoldsIdle(s.pcs[p]) && !s.pcs[p].CleanLoop? && !e.pc.CleanLoop?
    case PushBack(x) => s.locks.idle.Free? && |s.idle| < cfg.maxIdle && x.since == now && !e.pc.CleanLoop?
    case RemoveAt(i) => i < |s.idle| && s.pcs[p].CleanLoop? && e.pc.CleanLoop?
  }

  /** One iteration of the clean-up loop. */
  ghost predicate CleanMoves(cfg: Config, s: State, p: nat, e: Effect, now: nat)
    requires p < |s.pcs|
  {
    e.pc.CleanLoop? ==>
      || (s.pcs[p].CleanLockCount? && e.idle.KeepIdle? && e.pc == CleanLoop(|s.idle|, 0, s.idle, now))
      || (s.pcs[p].CleanLoop? && 0 < s.pcs[p].next <= |s.idle| &&
          var CleanLoop(next, removed, orig, began) := s.pcs[p];
          if IdleExpired(cfg, s.idle[next - 1], now)
          then e.idle == RemoveAt(next - 1) && e.pc == CleanLoop(next - 1, removed + 1, orig, began)
          else e.idle == KeepIdle && e.pc == CleanLoop(next - 1, removed, orig, began))
  }

  function WakeWeight(wake: Wake): nat {
    if wake.WakeUp? then Weight(wake.pc) else 0
  }

  function IdleGain(op: IdleOp): int {
    match op
    case KeepIdle => 0
    case PushBack(_) => 1
    case PopFront | RemoveAt(_) => -1
  }

  /** The counter moves with the connections it counts, or the drift takes up the difference. */
  ghost predicate CountMoves(cfg: Config, s: State, p: nat, e: Effect)
    requires p < |s.pcs|
  {
    && s.drift <= e.drift
    && (e.count <= s.count || e.count == 0 || (e.count == s.count + 1 && s.count < cfg.maxCap))
    && (e.closed ||
        e.count - s.count ==
          IdleGain(e.idle) + Weight(e.pc) - Weight(s.pcs[p]) + WakeWeight(e.wake) + (e.drift - s.drift))
  }

  function WakeCarries(wake: Wake, id: ConnId): nat {
    if wake.WakeUp? then Carries(wake.pc, id) else 0
  }

  /** How often `id` leaves the deque. */
  function Taken(idle: seq<IdleConn>, op: IdleOp, id: ConnId): nat {
    match op
    case PopFront => if idle != [] && idle[0].conn.id == id then 1 else 0
    case RemoveAt(i) => if i < |idle| && idle[i].conn.id == id then 1 else 0
    case KeepIdle | PushBack(_) => 0
  }

  function Returned(op: IdleOp, id: ConnId): nat {
    if op.PushBack? && op.x.conn.id == id then 1 else 0
  }

  function Logged(log: LogOp, id: ConnId): nat {
    if (log.Close? || log.Lose?) && log.id == id then 1 else 0
  }

  function Born(s: State, log: LogOp, id: ConnId): nat {
    if log.Birth? && id == |s.births| then 1 else 0
  }

  /** Whatever connection p had in hand, took from the deque or had made, it passes on once. */
  ghost predicate TokensMove(s: State, p: nat, e: Effect, id: ConnId)
    requires p < |s.pcs|
  {
    Carries(s.pcs[p], id) + Taken(s.idle, e.idle, id) + Born(s, e.log, id) ==
      Carries(e.pc, id) + WakeCarries(e.wake, id) + Returned(e.idle, id) + Logged(e.log, id)
  }

  /** A connection p passes on is, creation time included, one it had, took or had made. */
  ghost predicate Sourced(s: State, p: nat, e: Effect, c: Conn)
    requires p < |s.pcs|
  {
    || (HasConn(s.pcs[p]) && c == s.pcs[p].conn)
    || (e.idle.PopFront? && s.idle != [] && c == s.idle[0].conn)
    || (e.log.Birth? && c == Conn(|s.births|, e.log.at))
  }

  ghost predicate ConnsMove(s: State, p: nat, e: Effect)
    requires p < |s.pcs|
  {
    && (HasConn(e.pc) ==> Sourced(s, p, e, e.pc.conn))
    && (e.wake.WakeUp? && HasConn(e.wake.pc) ==> Sourced(s, p, e, e.wake.pc.conn))
    && (e.idle.PushBack? ==> Sourced(s, p, e, e.idle.x.conn))
  }

  /** A connection is handed over at an age within the limit, or was so before. */
  ghost predicate FreshOut(cfg: Config, s: State, p: nat, pc: Pc, now: nat)
    requires p < |s.pcs|
  {
    Checked(pc) ==>
      || (pc.checkedAt == now && !LifeExpired(cfg, pc.conn, now))
      || (Checked(s.pcs[p]) && pc.checkedAt == s.pcs[p].checkedAt && pc.conn == s.pcs[p].conn)
  }

  /** Locks, waiters and the deque. */
  ghost predicate Orderly(cfg: Config, s: State, p: nat, e: Effect, now: nat)
    requires p < |s.pcs|
  {
    LocksMove(s, p, e) && StackMoves(s, p, e) && IdleMoves(cfg, s, p, e, now) && CleanMoves(cfg, s, p, e, now)
  }

  /** Connections and the counter. */
  ghost predicate Balanced(cfg: Config, s: State, p: nat, e: Effect, now: nat)
    requires p < |s.pcs|
  {
    && CountMoves(cfg, s, p, e) && (forall id :: TokensMove(s, p, e, id)) && ConnsMove(s, p, e)
    && FreshOut(cfg, s, p, e.pc, now)
    && (e.wake.WakeUp? ==> FreshOut(cfg, s, p, e.wake.pc, now))
    && (e.log.Birth? ==> e.log.at == now)
  }

  // ---------------------------------------------------------------- the facts hold

  /** p holds exactly the locks its program point says, and stops `release` has passed are behind
      a raised closed flag. */
  ghost predicate HoldsItsLocks(s: State, p: nat)
    requires p < |s.pcs|
  {
    && (HoldsIdle(s.pcs[p]) <==> s.locks.idle == By(p))
    && (HoldsCount(s.pcs[p]) <==> s.locks.count == By(p))
    && (HoldsReqs(s.pcs[p]) <==> s.locks.reqs == By(p))
    && (HoldsClosed(s.pcs[p]) <==> s.locks.closed == By(p))
    && (HoldsClosed(s.pcs[p]) ==> s.closed)
  }

  lemma GetOrderly(cfg: Config, s: State, p: nat, env: Env)
    requires p < |s.pcs| && InGet(s.pcs[p]) && CanRun(s, p) && HoldsItsLocks(s, p) && env.t <= env.t2
    ensures Orderly(cfg, s, p, GetSection(cfg, s, p, env), env.t2)
  {
  }

  lemma PutOrderly(cfg: Config, s: State, p: nat, env: Env)
    requires p < |s.pcs| && InPut(s.pcs[p]) && CanRun(s, p) && IndicesOk(s, p) && HoldsItsLocks(s, p)
    ensures Orderly(cfg, s, p, PutSection(cfg, s, p, env), env.t2)
  {
  }

  lemma CleanOrderly(cfg: Config, s: State, p: nat, env: Env)
    requires p < |s.pcs| && InClean(s.pcs[p]) && CanRun(s, p) && IndicesOk(s, p) && HoldsItsLocks(s, p)
    ensures Orderly(cfg, s, p, CleanSection(cfg, s, p, env), env.t2)
  {
  }

  lemma ReleaseOrderly(cfg: Config, s: State, p: nat, env: Env)
    requires p < |s.pcs| && InRelease(s.pcs[p]) && CanRun(s, p) && IndicesOk(s, p) && HoldsItsLocks(s, p)
    ensures Orderly(cfg, s, p, ReleaseSection(s, p, env), env.t2)
  {
  }

  lemma CallOrderly(cfg: Config, s: State, m: Move)
    requires Enabled(s, m) && !m.action.Run? && HoldsItsLocks(s, m.p)
    ensures Orderly(cfg, s, m.p, EffectOf(cfg, s, m), s.now)
  {
  }

  lemma GetBalanced(cfg: Config, s: State, p: nat, env: Env)
    requires p < |s.pcs| && InGet(s.pcs[p]) && CanRun(s, p) && HoldsItsLocks(s, p) && env.t <= env.t2
    ensures Balanced(cfg, s, p, GetSection(cfg, s, p, env), env.t2)
  {
  }

  lemma PutBalanced(cfg: Config, s: State, p: nat, env: Env)
    requires p < |s.pcs| && InPut(s.pcs[p]) && CanRun(s, p) && IndicesOk(s, p) && HoldsItsLocks(s, p)
    ensures Balanced(cfg, s, p, PutSection(cfg, s, p, env), env.t2)
  {
  }

  lemma CleanBalanced(cfg: Config, s: State, p: nat, env: Env)
    requires p < |s.pcs| && InClean(s.pcs[p]) && CanRun(s, p) && IndicesOk(s, p) && HoldsItsLocks(s, p)
    ensures Balanced(cfg, s, p, CleanSection(cfg, s, p, env), env.t2)
  {
  }

  lemma ReleaseBalanced(cfg: Config, s: State, p: nat, env: Env)
    requires p < |s.pcs| && InRelease(s.pcs[p]) && CanRun(s, p) && IndicesOk(s, p) && HoldsItsLocks(s, p)
    ensures Balanced(cfg, s, p, ReleaseSection(s, p, env), env.t2)
  {
  }

  lemma CallBalanced(cfg: Config, s: State, m: Move)
    requires Enabled(s, m) && !m.action.Run? && HoldsItsLocks(s, m.p)
    ensures Balanced(cfg, s, m.p, EffectOf(cfg, s, m), s.now)
  {
  }

  function Clock(s: State, m: Move): nat {
    if m.action.Run? then m.action.env.t2 else s.now
  }

  lemma MoveLawful(cfg: Config, s: State, m: Move)
    requires Enabled(s, m) && HoldsItsLocks(s, m.p)
    ensures Orderly(cfg, s, m.p, EffectOf(cfg, s, m), Clock(s, m))
    ensures Balanced(cfg, s, m.p, EffectOf(cfg, s, m), Clock(s, m))
    ensures s.now <= Clock(s, m)
    ensures Step(cfg, s, m) == Apply(s, m.p, EffectOf(cfg, s, m), Clock(s, m))
  {
    if m.action.Run? {
      var env := m.action.env;
      if InGet(s.pcs[m.p]) {
        GetOrderly(cfg, s, m.p, env);
        GetBalanced(cfg, s, m.p, env);
      } else if InPut(s.pcs[m.p]) {
        PutOrderly(cfg, s, m.p, env);
        PutBalanced(cfg, s, m.p, env);
      } else if InClean(s.pcs[m.p]) {
        CleanOrderly(cfg, s, m.p, env);
        CleanBalanced(cfg, s, m.p, env);
      } else {
        ReleaseOrderly(cfg, s, m.p, env);
        ReleaseBalanced(cfg, s, m.p, env);
      }
    } else {
      CallOrderly(cfg, s, m);
      CallBalanced(cfg, s, m);
    }
  }
}
