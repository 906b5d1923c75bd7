/** The pool's operations run from call to return with no other caller in between: what each does to
    the deque, the counter and the waiter stack, and that doing so is a run of the step system. */
module PoolOperations {
  import opened Tally
  import opened Transitions
  import opened PoolMachine
  import opened PoolMoves
  import opened PoolEffects
  import opened PoolInvariants

  datatype GetResult = Got(conn: Conn) | Waits | GetClosed | FactoryFailed

  /** All but CloseFailed are the source's Ok(()). */
  datatype PutResult =
    | Ignored               // the pool is closed
    | Retired(closed: bool)       // too old
    | Handed(waiter: nat)
    | Undelivered(closed: bool)   // the newest waiter had gone
    | Returned
    | Overflowed
    | CloseFailed

  /** What the operations change: the deque, the counter, the waiter stack, and the connections that the
      closer has closed, in order. */
  datatype Shared = Shared(idle: seq<IdleConn>, count: int, reqs: seq<Request>, shut: seq<ConnId>)

  /** A reason why `get` may have thrown x away by now. */
  predicate MayGo(cfg: Config, x: IdleConn, now: nat) {
    IdleExpired(cfg, x, now) || LifeExpired(cfg, x.conn, now) || cfg.hasPinger
  }

  predicate Passed(cfg: Config, idle: seq<IdleConn>, k: nat, now: nat) {
    k <= |idle| && forall j :: 0 <= j < k ==> MayGo(cfg, idle[j], now)
  }

  predicate WasGood(cfg: Config, x: IdleConn, began: nat) {
    !IdleExpired(cfg, x, began) && !LifeExpired(cfg, x.conn, began)
  }

  lemma PassedOne(cfg: Config, idle: seq<IdleConn>, k: nat, t: nat, env: Env)
    requires Passed(cfg, idle, k, t) && t <= env.t <= env.t2 && k < |idle|
    ensures Passed(cfg, idle, k, env.t2)
    ensures Evicted(cfg, idle[k], env) ==> Passed(cfg, idle, k + 1, env.t2)
  {
  }

  lemma PassedLater(cfg: Config, idle: seq<IdleConn>, k: nat, t: nat, now: nat)
    requires Passed(cfg, idle, k, t) && t <= now
    ensures Passed(cfg, idle, k, now)
  {
  }

  lemma KeptWasGood(cfg: Config, x: IdleConn, began: nat, env: Env)
    requires began <= env.t <= env.t2 && !Evicted(cfg, x, env)
    ensures WasGood(cfg, x, began)
  {
  }

  /** The closer was called on each of these in turn, and closed the ones in ids. */
  predicate ClosedSome(ids: seq<ConnId>, idle: seq<IdleConn>) {
    if idle == [] then ids == []
    else
      var n := |idle| - 1;
      || ClosedSome(ids, idle[..n])
      || (ids != [] && ids[|ids| - 1] == idle[n].conn.id && ClosedSome(ids[..|ids| - 1], idle[..n]))
  }

  /** The first k of the deque went to the closer. */
  predicate ClosedOf(idle: seq<IdleConn>, k: nat, before: seq<ConnId>, after: seq<ConnId>) {
    k <= |idle| && before <= after && ClosedSome(after[|before|..], idle[..k])
  }

  lemma ClosedOneMore(idle: seq<IdleConn>, k: nat, before: seq<ConnId>, between: seq<ConnId>, closed: bool)
    requires ClosedOf(idle, k, before, between) && k < |idle|
    ensures ClosedOf(idle, k + 1, before, if closed then between + [idle[k].conn.id] else between)
  {
    assert idle[..k + 1][..k] == idle[..k];
    if closed {
      var ids := (between + [idle[k].conn.id])[|before|..];
      assert ids[..|ids| - 1] == between[|before|..];
    }
  }

  lemma ClosedNone(idle: seq<IdleConn>, before: seq<ConnId>)
    ensures ClosedOf(idle, 0, before, before)
  {
  }

  /** c comes from the deque and was good when the call began; those before it had a reason to go by its
      end and are counted out. */
  predicate FromDeque(cfg: Config, c: Conn, began: nat, now: nat, before: Shared, after: Shared) {
    var k := |before.idle| - |after.idle| - 1;
    && 0 <= k < |before.idle| && c == before.idle[k].conn
    && after == Shared(before.idle[k + 1..], before.count - k, before.reqs, after.shut)
    && ClosedOf(before.idle, k, before.shut, after.shut)
    && Passed(cfg, before.idle, k, now) && WasGood(cfg, before.idle[k], began)
  }

  /** All in the deque had a reason to go and are counted out. */
  predicate Emptied(cfg: Config, now: nat, before: Shared, after: Shared) {
    && after == Shared([], before.count - |before.idle|, before.reqs, after.shut)
    && ClosedOf(before.idle, |before.idle|, before.shut, after.shut)
    && Passed(cfg, before.idle, |before.idle|, now)
  }

  /** `get` has thrown away the first k. */
  predicate Scanned(cfg: Config, k: nat, now: nat, before: Shared, after: Shared) {
    && k <= |before.idle| && after == Shared(before.idle[k..], before.count - k, before.reqs, after.shut)
    && Passed(cfg, before.idle, k, now) && ClosedOf(before.idle, k, before.shut, after.shut)
  }

  lemma ScanBegins(cfg: Config, now: nat, x: Shared)
    ensures Scanned(cfg, 0, now, x, x)
  {
    ClosedNone(x.idle, x.shut);
    assert x.idle[0..] == x.idle;
  }

  /** The pool without its front connection, which was closed or lost. */
  function WithoutFront(x: Shared, closed: bool): Shared
    requires x.idle != []
  {
    Shared(x.idle[1..], x.count - 1, x.reqs, if closed then x.shut + [x.idle[0].conn.id] else x.shut)
  }

  lemma ScanDrops(cfg: Config, k: nat, t: nat, env: Env, before: Shared, between: Shared)
    requires Scanned(cfg, k, t, before, between) && between.idle != [] && t <= env.t <= env.t2
    requires Evicted(cfg, between.idle[0], env)
    ensures Scanned(cfg, k + 1, env.t2, before, WithoutFront(between, env.closerOk))
  {
    assert between.idle[0] == before.idle[k] && between.idle[1..] == before.idle[k + 1..];
    PassedOne(cfg, before.idle, k, t, env);
    ClosedOneMore(before.idle, k, before.shut, between.shut, env.closerOk);
  }

  lemma ScanTakes(cfg: Config, k: nat, began: nat, t: nat, env: Env, before: Shared, between: Shared)
    requires Scanned(cfg, k, t, before, between) && between.idle != [] && began <= t <= env.t <= env.t2
    requires !Evicted(cfg, between.idle[0], env)
    ensures FromDeque(cfg, between.idle[0].conn, began, env.t2, before, between.(idle := between.idle[1..]))
  {
    assert between.idle[0] == before.idle[k] && between.idle[1..] == before.idle[k + 1..];
    PassedOne(cfg, before.idle, k, t, env);
    KeptWasGood(cfg, before.idle[k], began, env);
  }

  lemma ScanEnds(cfg: Config, k: nat, now: nat, before: Shared, after: Shared)
    requires Scanned(cfg, k, now, before, after) && after.idle == []
    ensures Emptied(cfg, now, before, after)
  {
    assert k == |before.idle|;
  }

  /** What `get` does between the times began and now, for caller p, once it has found the pool open. */
  predicate GetDoes(cfg: Config, r: GetResult, p: nat, id: ConnId, began: nat, now: nat,
                    before: Shared, after: Shared)
  {
    match r
    case Got(c) =>
      || FromDeque(cfg, c, began, now, before, after)
      || (&& c == Conn(id, now) && after.count <= cfg.maxCap
          && Emptied(cfg, now, before, after.(count := after.count - 1)))
    case Waits =>
      && after.reqs == before.reqs + [Waiting(p)] && after.count >= cfg.maxCap
      && Emptied(cfg, now, before, after.(reqs := before.reqs))
    case FactoryFailed => Emptied(cfg, now, before, after) && after.count < cfg.maxCap
    case GetClosed => false
  }

  /** What `get` does at time now once the deque is empty. */
  predicate BeyondDoes(cfg: Config, r: GetResult, p: nat, id: ConnId, now: nat, before: Shared, after: Shared) {
    match r
    case Got(c) => before.count < cfg.maxCap && c == Conn(id, now) && after == before.(count := before.count + 1)
    case Waits => before.count >= cfg.maxCap && after == before.(reqs := before.reqs + [Waiting(p)])
    case FactoryFailed => before.count < cfg.maxCap && after == before
    case GetClosed => false
  }

  lemma GetGoesBeyond(cfg: Config, r: GetResult, p: nat, id: ConnId, began: nat, t: nat, now: nat,
                      before: Shared, between: Shared, after: Shared)
    requires Emptied(cfg, t, before, between) && t <= now && BeyondDoes(cfg, r, p, id, now, between, after)
    ensures GetDoes(cfg, r, p, id, began, now, before, after)
  {
    PassedLater(cfg, before.idle, |before.idle|, t, now);
  }

  /** What became of the connection a caller put back, its age having been checked at time t, by time now. */
  predicate PutDoes(cfg: Config, r: PutResult, c: Conn, t: nat, now: nat, before: Shared, after: Shared) {
    var Shared(idle, count, reqs, shut) := before;
    (r.Ignored? || (r.Retired? <==> LifeExpired(cfg, c, t))) &&
    match r
    case Ignored => after == before
    case Retired(closed) => after == Shared(idle, count - 1, reqs, if closed then shut + [c.id] else shut)
    case Handed(w) =>
      reqs != [] && reqs[|reqs| - 1] == Waiting(w) && after == before.(reqs := reqs[..|reqs| - 1])
    case Undelivered(closed) =>
      && reqs != [] && reqs[|reqs| - 1] == Gone
      && after == Shared(idle, count - 1, reqs[..|reqs| - 1], if closed then shut + [c.id] else shut)
    case Returned => reqs == [] && |idle| < cfg.maxIdle && after == before.(idle := idle + [IdleConn(c, now)])
    case Overflowed =>
      reqs == [] && |idle| >= cfg.maxIdle && after == Shared(idle, count - 1, reqs, shut + [c.id])
    case CloseFailed => reqs == [] && |idle| >= cfg.maxIdle && after == before
  }

  /** p's connection has gone to w. */
  ghost predicate HandedTo(pcs: seq<Pc>, pcs': seq<Pc>, p: nat, w: nat, conn: Conn) {
    && p < |pcs| == |pcs'| && w < |pcs| && w != p && pcs[w].Parked? && pcs'[w].Served? && pcs'[w].conn == conn
    && pcs' == pcs[w := pcs'[w]][p := Ready]
  }

  predicate AtRest(pc: Pc) {
    pc.Ready? || pc.Holding? || pc.Parked? || pc.Served? || pc.Refused?
  }

  ghost predicate AllAtRest(pcs: seq<Pc>) {
    forall p :: 0 <= p < |pcs| ==> AtRest(pcs[p])
  }

  ghost predicate HasWaiter(reqs: seq<Request>) {
    exists i :: 0 <= i < |reqs| && reqs[i].Waiting?
  }

  /** Nobody waits while the pool could serve: if there are waiters, the deque is empty and the cap
      is reached. */
  ghost predicate NoStranded(cfg: Config, x: Shared) {
    HasWaiter(x.reqs) ==> x.idle == [] && x.count >= cfg.maxCap
  }

  lemma GetStrandsNobody(cfg: Config, r: GetResult, p: nat, id: ConnId, began: nat, now: nat,
                         before: Shared, after: Shared)
    requires GetDoes(cfg, r, p, id, began, now, before, after) && NoStranded(cfg, before)
    ensures NoStranded(cfg, after)
  {
    if !r.Waits? {
      assert after.reqs == before.reqs;
    }
  }

  /** When a `put` at time t strands waiters, told beforehand: somebody waits at a counter just at the
      cap, and the connection is too old, or the newest waiter has gone. */
  ghost predicate PutWillStrand(cfg: Config, c: Conn, t: nat, before: Shared) {
    && HasWaiter(before.reqs) && before.count == cfg.maxCap
    && (LifeExpired(cfg, c, t) || before.reqs[|before.reqs| - 1].Gone?)
  }

  lemma PutStrands(cfg: Config, r: PutResult, c: Conn, t: nat, now: nat, before: Shared, after: Shared)
    requires PutDoes(cfg, r, c, t, now, before, after) && !r.Ignored? && NoStranded(cfg, before)
    ensures NoStranded(cfg, after) <==> !PutWillStrand(cfg, c, t, before)
  {
    if r.Handed? || r.Undelivered? {
      LastGone(before.reqs);
    }
  }

  /** Popping the newest entry loses a waiter only if it was one. */
  lemma LastGone(reqs: seq<Request>)
    requires reqs != []
    ensures HasWaiter(reqs[..|reqs| - 1]) ==> HasWaiter(reqs)
    ensures reqs[|reqs| - 1].Gone? && HasWaiter(reqs) ==> HasWaiter(reqs[..|reqs| - 1])
  {
    var most := reqs[..|reqs| - 1];
    if HasWaiter(most) {
      var i :| 0 <= i < |most| && most[i].Waiting?;
      assert reqs[i].Waiting?;
    }
    if reqs[|reqs| - 1].Gone? && HasWaiter(reqs) {
      var i :| 0 <= i < |reqs| && reqs[i].Waiting?;
      assert most[i].Waiting?;
    }
  }

  lemma RestIsUnlocked(cfg: Config, s: State)
    requires Reachable(cfg, s) && AllAtRest(s.pcs)
    ensures s.locks == Locks(Free, Free, Free, Free)
  {
    InvReachable(cfg, s);
    Unheld(s.locks.idle, s.pcs, HoldsIdle);
    Unheld(s.locks.count, s.pcs, HoldsCount);
    Unheld(s.locks.reqs, s.pcs, HoldsReqs);
    Unheld(s.locks.closed, s.pcs, HoldsClosed);
  }

  lemma Unheld(lock: Lock, pcs: seq<Pc>, holds: Pc -> bool)
    requires LockedBy(lock, pcs, holds) && forall p :: 0 <= p < |pcs| ==> !holds(pcs[p])
    ensures lock.Free?
  {
  }

  lemma ReachableOn(cfg: Config, s: State, t: State)
    requires Reachable(cfg, s) && Leads(Next(cfg, AllCalls), s, t)
    ensures Reachable(cfg, t)
  {
    var s0 :| Init(cfg, s0) && Leads(Next(cfg, AllCalls), s0, s);
    LeadsTrans(Next(cfg, AllCalls), s0, s, t);
  }

  lemma NewestIsParked(cfg: Config, s: State)
    requires Reachable(cfg, s) && s.reqs != []
    ensures match s.reqs[|s.reqs| - 1]
            case Waiting(w) => w < |s.pcs| && s.pcs[w].Parked?
            case Gone => true
  {
    InvReachable(cfg, s);
  }

  lemma WaiterIsParked(cfg: Config, s: State, d: nat)
    requires Reachable(cfg, s) && d < |s.reqs| && s.reqs[d].Waiting?
    ensures s.reqs[d].waiter < |s.pcs| && s.pcs[s.reqs[d].waiter].Parked?
  {
    InvReachable(cfg, s);
  }

  lemma ReadyIsNoWaiter(cfg: Config, s: State, p: nat)
    requires Reachable(cfg, s) && p < |s.pcs| && s.pcs[p].Ready?
    ensures Waiting(p) !in s.reqs
  {
    InvReachable(cfg, s);
  }

  lemma HeldIsYoung(cfg: Config, s: State, p: nat)
    requires Reachable(cfg, s) && p < |s.pcs| && s.pcs[p].Holding?
    ensures cfg.maxLifetime > 0 ==> Elapsed(s.pcs[p].conn.created, s.pcs[p].checkedAt) <= cfg.maxLifetime
  {
    InvReachable(cfg, s);
  }

  /** `get` has thrown away the front of the deque and counted it out. */
  function AfterEvict(s: State, p: nat, env: Env): State
    requires p < |s.pcs| && s.idle != []
  {
    Discard(At(s, p, GetScan, env.t2).(idle := s.idle[1..], count := s.count - 1), s.idle[0].conn, env.closerOk)
  }

  lemma EvictMoves(cfg: Config, calls: Calls, s: State, p: nat, env: Env)
    requires p < |s.pcs| && s.pcs[p].GetScan? && s.idle != [] && Timely(s, env) && s.locks.count.Free?
    requires Evicted(cfg, s.idle[0], env)
    ensures Leads(Next(cfg, calls), s, AfterEvict(s, p, env))
  {
    var s1 := Discard(At(s, p, GetOwes, env.t2).(idle := s.idle[1..]), s.idle[0].conn, env.closerOk);
    ScanEvictMove(cfg, calls, s, p, env);
    GetOwesMove(cfg, calls, s1, p, Env(env.t2, env.t2, true, true, true));
    assert s1.pcs[p := GetScan] == s.pcs[p := GetScan];
    assert At(s1, p, GetScan, env.t2).(count := s1.count - 1) == AfterEvict(s, p, env);
    LeadsTrans(Next(cfg, calls), s, s1, AfterEvict(s, p, env));
  }

  // ---------------------------------------------------------------- whole puts as runs

  /** p's `put` up to the point where it awaits reqs. */
  lemma PutBegins(cfg: Config, calls: Calls, s: State, p: nat, c: Conn, t: nat)
    requires p < |s.pcs| && s.pcs[p].Holding? && s.pcs[p].conn == c && s.now <= t && !s.closed && s.locks == Unlocked()
    requires !LifeExpired(cfg, c, t)
    ensures Leads(Next(cfg, calls), s, At(s, p, PutLockReqs(c, t), t))
  {
    var s1 := At(s, p, PutEnter(c), s.now);
    CallMove(cfg, calls, s, p, CallPut, PutEnter(c));
    PutEnterMove(cfg, calls, s1, p, Env(t, t, true, true, true));
    LeadsTrans(Next(cfg, calls), s, s1, At(s1, p, PutLockReqs(c, t), t));
    assert s1.pcs[p := PutLockReqs(c, t)] == s.pcs[p := PutLockReqs(c, t)];
  }

  lemma PutIgnored(cfg: Config, s: State, p: nat, c: Conn)
    requires p < |s.pcs| && s.pcs[p].Holding? && s.pcs[p].conn == c && s.closed && s.locks == Unlocked()
    ensures Leads(Next(cfg, AllCalls), s, At(s, p, Ready, s.now).(lost := s.lost + [c.id]))
  {
    var s1 := At(s, p, PutEnter(c), s.now);
    CallMove(cfg, AllCalls, s, p, CallPut, PutEnter(c));
    PutRefusedMove(cfg, AllCalls, s1, p, Env(s.now, s.now, true, true, true));
    LeadsTrans(Next(cfg, AllCalls), s, s1, At(s1, p, Ready, s.now).(lost := s.lost + [c.id]));
    assert s1.pcs[p := Ready] == s.pcs[p := Ready];
  }

  /** A `put` has discarded its connection, counted it out and returned. */
  function AfterDiscard(s: State, p: nat, c: Conn, t: nat, closerOk: bool): State
    requires p < |s.pcs|
  {
    Discard(At(s, p, Ready, t).(count := s.count - 1), c, closerOk)
  }

  lemma OwedIsPaid(cfg: Config, calls: Calls, s: State, p: nat, c: Conn, t: nat, closerOk: bool)
    requires p < |s.pcs| && s.locks.count.Free?
    ensures Leads(Next(cfg, calls), Discard(At(s, p, PutOwes, t), c, closerOk), AfterDiscard(s, p, c, t, closerOk))
  {
    var s1 := Discard(At(s, p, PutOwes, t), c, closerOk);
    PutOwesMove(cfg, calls, s1, p, Env(t, t, true, true, true));
    assert s1.pcs[p := Ready] == s.pcs[p := Ready];
    assert At(s1, p, Ready, t).(count := s1.count - 1) == AfterDiscard(s, p, c, t, closerOk);
  }

  lemma PutRetires(cfg: Config, calls: Calls, s: State, p: nat, c: Conn, t: nat, closerOk: bool)
    requires p < |s.pcs| && s.pcs[p].Holding? && s.pcs[p].conn == c && s.now <= t && !s.closed && s.locks == Unlocked()
    requires LifeExpired(cfg, c, t)
    ensures Leads(Next(cfg, calls), s, AfterDiscard(s, p, c, t, closerOk))
  {
    var s1 := At(s, p, PutEnter(c), s.now);
    var s2 := Discard(At(s1, p, PutOwes, t), c, closerOk);
    CallMove(cfg, calls, s, p, CallPut, PutEnter(c));
    PutExpiredMove(cfg, calls, s1, p, Env(t, t, closerOk, true, true));
    LeadsTrans(Next(cfg, calls), s, s1, s2);
    assert At(s1, p, PutOwes, t) == At(s, p, PutOwes, t) by {
      assert s1.pcs[p := PutOwes] == s.pcs[p := PutOwes];
    }
    OwedIsPaid(cfg, calls, s, p, c, t, closerOk);
    LeadsTrans(Next(cfg, calls), s, s2, AfterDiscard(s, p, c, t, closerOk));
  }

  function Popped(s: State): State
    requires s.reqs != []
  {
    s.(reqs := s.reqs[..|s.reqs| - 1])
  }

  lemma PutUndelivered(cfg: Config, calls: Calls, s: State, p: nat, c: Conn, t: nat, closerOk: bool)
    requires p < |s.pcs| && s.pcs[p].Holding? && s.pcs[p].conn == c && s.now <= t && !s.closed && s.locks == Unlocked()
    requires !LifeExpired(cfg, c, t) && s.reqs != [] && s.reqs[|s.reqs| - 1].Gone?
    ensures Leads(Next(cfg, calls), s, AfterDiscard(Popped(s), p, c, t, closerOk))
  {
    var s1 := At(s, p, PutLockReqs(c, t), t);
    var s2 := Discard(At(Popped(s), p, PutOwes, t), c, closerOk);
    PutBegins(cfg, calls, s, p, c, t);
    PutGoneMove(cfg, calls, s1, p, Env(t, t, closerOk, true, true));
    assert At(s1, p, PutOwes, t).(reqs := s1.reqs[..|s1.reqs| - 1]) == At(Popped(s), p, PutOwes, t) by {
      assert s1.pcs[p := PutOwes] == s.pcs[p := PutOwes];
    }
    LeadsTrans(Next(cfg, calls), s, s1, s2);
    OwedIsPaid(cfg, calls, Popped(s), p, c, t, closerOk);
    LeadsTrans(Next(cfg, calls), s, s2, AfterDiscard(Popped(s), p, c, t, closerOk));
  }

  /** The newest waiter has been handed the connection. */
  function AfterHandOver(s: State, p: nat, w: nat, c: Conn, t: nat): State
    requires p < |s.pcs| && w < |s.pcs| && s.reqs != []
  {
    Popped(s).(pcs := s.pcs[w := Served(c, t)][p := Ready], now := t)
  }

  lemma PutHandsOver(cfg: Config, calls: Calls, s: State, p: nat, w: nat, c: Conn, t: nat)
    requires p < |s.pcs| && s.pcs[p].Holding? && s.pcs[p].conn == c && s.now <= t && !s.closed && s.locks == Unlocked()
    requires !LifeExpired(cfg, c, t) && s.reqs != [] && s.reqs[|s.reqs| - 1] == Waiting(w) && w < |s.pcs| && w != p
    ensures Leads(Next(cfg, calls), s, AfterHandOver(s, p, w, c, t))
  {
    var s1 := At(s, p, PutLockReqs(c, t), t);
    PutBegins(cfg, calls, s, p, c, t);
    ServeMove(cfg, calls, s1, p, w, Env(t, t, true, true, true));
    assert s1.pcs[w := Served(c, t)][p := Ready] == s.pcs[w := Served(c, t)][p := Ready];
    LeadsTrans(Next(cfg, calls), s, s1, AfterHandOver(s, p, w, c, t));
  }

  /** Nobody waits; p holds reqs and awaits idle. */
  function BeforeDeque(s: State, p: nat, c: Conn, t: nat): State
    requires p < |s.pcs|
  {
    At(s, p, PutLockIdle(c), t).(locks := s.locks.(reqs := By(p)))
  }

  lemma PutReachesDeque(cfg: Config, calls: Calls, s: State, p: nat, c: Conn, t: nat)
    requires p < |s.pcs| && s.pcs[p].Holding? && s.pcs[p].conn == c && s.now <= t && !s.closed && s.locks == Unlocked()
    requires !LifeExpired(cfg, c, t) && s.reqs == []
    ensures Leads(Next(cfg, calls), s, BeforeDeque(s, p, c, t))
  {
    var s1 := At(s, p, PutLockReqs(c, t), t);
    PutBegins(cfg, calls, s, p, c, t);
    PutLockReqsMove(cfg, calls, s1, p, Env(t, t, true, true, true));
    assert s1.pcs[p := PutLockIdle(c)] == s.pcs[p := PutLockIdle(c)];
    LeadsTrans(Next(cfg, calls), s, s1, BeforeDeque(s, p, c, t));
  }

  lemma PutReturns(cfg: Config, s: State, p: nat, c: Conn, t: nat, t2: nat)
    requires p < |s.pcs| && s.pcs[p].Holding? && s.pcs[p].conn == c
    requires s.now <= t <= t2 && !s.closed && s.locks == Unlocked()
    requires !LifeExpired(cfg, c, t) && s.reqs == [] && |s.idle| < cfg.maxIdle
    ensures Leads(Next(cfg, AllCalls), s, At(s, p, Ready, t2).(idle := s.idle + [IdleConn(c, t2)]))
  {
    var s1 := BeforeDeque(s, p, c, t);
    PutReachesDeque(cfg, AllCalls, s, p, c, t);
    PushMove(cfg, AllCalls, s1, p, Env(t2, t2, true, true, true));
    assert s1.pcs[p := Ready] == s.pcs[p := Ready];
    LeadsTrans(Next(cfg, AllCalls), s, s1, At(s, p, Ready, t2).(idle := s.idle + [IdleConn(c, t2)]));
  }

  lemma PutFailsToClose(cfg: Config, calls: Calls, s: State, p: nat, c: Conn, t: nat)
    requires p < |s.pcs| && s.pcs[p].Holding? && s.pcs[p].conn == c && s.now <= t && !s.closed && s.locks == Unlocked()
    requires !LifeExpired(cfg, c, t) && s.reqs == [] && |s.idle| >= cfg.maxIdle
    ensures Leads(Next(cfg, calls), s,
              At(s, p, Ready, t).(lost := s.lost + [c.id], drift := s.drift + 1))
  {
    var s1 := BeforeDeque(s, p, c, t);
    PutReachesDeque(cfg, calls, s, p, c, t);
    OverflowFailsMove(cfg, calls, s1, p, Env(t, t, false, true, true));
    assert s1.pcs[p := Ready] == s.pcs[p := Ready];
    LeadsTrans(Next(cfg, calls), s, s1, At(s, p, Ready, t).(lost := s.lost + [c.id], drift := s.drift + 1));
  }

  lemma PutOverflows(cfg: Config, s: State, p: nat, c: Conn, t: nat)
    requires p < |s.pcs| && s.pcs[p].Holding? && s.pcs[p].conn == c && s.now <= t && !s.closed && s.locks == Unlocked()
    requires !LifeExpired(cfg, c, t) && s.reqs == [] && |s.idle| >= cfg.maxIdle
    ensures Leads(Next(cfg, AllCalls), s, AfterDiscard(s, p, c, t, true))
  {
    var next := Next(cfg, AllCalls);
    var env := Env(t, t, true, true, true);
    var s1 := BeforeDeque(s, p, c, t);
    var s2 := At(s1, p, PutOverflow, t).(closedLog := s.closedLog + [c.id], locks := s1.locks.(idle := By(p)));
    PutReachesDeque(cfg, AllCalls, s, p, c, t);
    OverflowMove(cfg, AllCalls, s1, p, env);
    LeadsTrans(next, s, s1, s2);
    OverflowDoneMove(cfg, AllCalls, s2, p, env);
    assert s2.pcs[p := Ready] == s.pcs[p := Ready];
    assert At(s2, p, Ready, t).(count := s2.count - 1, locks := Unlocked()) == AfterDiscard(s, p, c, t, true);
    LeadsTrans(next, s, s2, AfterDiscard(s, p, c, t, true));
  }

  /** The callers' program points before and after a `put` of p. */
  ghost predicate PutMoves(r: PutResult, p: nat, conn: Conn, pcs: seq<Pc>, pcs': seq<Pc>) {
    p < |pcs| && if r.Handed? then HandedTo(pcs, pcs', p, r.waiter, conn) else pcs' == pcs[p := Ready]
  }

  function SharedOf(s: State): Shared {
    Shared(s.idle, s.count, s.reqs, s.closedLog)
  }

  /** From s to s' p's `put` has run, to this result. */
  ghost predicate PutRuns(cfg: Config, s: State, p: nat, c: Conn, r: PutResult, now: nat, after: Shared, s': State) {
    && Leads(Next(cfg, AllCalls), s, s') && SharedOf(s') == after
    && s'.closed == s.closed && s'.now == now && s'.births == s.births
    && PutMoves(r, p, c, s.pcs, s'.pcs) && AllAtRest(s'.pcs)
  }

  lemma PutRunAtDeque(cfg: Config, s: State, p: nat, c: Conn, r: PutResult, t: nat, now: nat, after: Shared)
    returns (s': State)
    requires AllAtRest(s.pcs) && p < |s.pcs| && s.pcs[p].Holding? && s.pcs[p].conn == c && s.locks == Unlocked()
    requires PutDoes(cfg, r, c, t, now, SharedOf(s), after) && !s.closed && s.now <= t <= now
    requires r.Returned? || ((r.Overflowed? || r.CloseFailed?) && t == now)
    ensures PutRuns(cfg, s, p, c, r, now, after, s')
  {
    match r
    case Returned =>
      s' := At(s, p, Ready, now).(idle := s.idle + [IdleConn(c, now)]);
      PutReturns(cfg, s, p, c, t, now);
    case Overflowed =>
      s' := AfterDiscard(s, p, c, now, true);
      PutOverflows(cfg, s, p, c, now);
    case CloseFailed =>
      s' := At(s, p, Ready, now).(lost := s.lost + [c.id], drift := s.drift + 1);
      PutFailsToClose(cfg, AllCalls, s, p, c, now);
  }

  /** Whatever `put` does, having checked the connection's age at time t and ending at time now, is a
      run of the step system. */
  lemma PutRun(cfg: Config, s: State, p: nat, c: Conn, r: PutResult, t: nat, now: nat, after: Shared)
    returns (s': State)
    requires Reachable(cfg, s) && AllAtRest(s.pcs) && p < |s.pcs| && s.pcs[p].Holding? && s.pcs[p].conn == c
    requires PutDoes(cfg, r, c, t, now, SharedOf(s), after) && (r.Ignored? <==> s.closed) && s.now <= t <= now
    requires (r.Returned? || t == now) && (r.Ignored? ==> now == s.now)
    ensures PutRuns(cfg, s, p, c, r, now, after, s')
  {
    RestIsUnlocked(cfg, s);
    match r
    case Ignored =>
      s' := At(s, p, Ready, now).(lost := s.lost + [c.id]);
      PutIgnored(cfg, s, p, c);
    case Retired(ok) =>
      s' := AfterDiscard(s, p, c, now, ok);
      PutRetires(cfg, AllCalls, s, p, c, now, ok);
    case Handed(w) =>
      NewestIsParked(cfg, s);
      s' := AfterHandOver(s, p, w, c, now);
      PutHandsOver(cfg, AllCalls, s, p, w, c, now);
    case Undelivered(ok) =>
      s' := AfterDiscard(Popped(s), p, c, now, ok);
      PutUndelivered(cfg, AllCalls, s, p, c, now, ok);
    case _ =>
      s' := PutRunAtDeque(cfg, s, p, c, r, t, now, after);
  }

  // ---------------------------------------------------------------- a whole clean-up as a run

  /** The block of k connections from the i-th on has gone, all of it and all before it expired. */
  predicate CleanCuts(cfg: Config, ok: bool, i: int, k: int, began: nat, now: nat, before: Shared, after: Shared) {
    && 0 <= k && 0 <= i <= |before.idle| - k
    && after.idle == Without(before.idle, i, k) && after.shut == before.shut + Closings(before.idle, i, k)
    && (if ok then i == 0 else i > 0)
    && (forall j :: 0 <= j < i + k ==> IdleExpired(cfg, before.idle[j], now))
    && (forall j :: i + k <= j < |before.idle| ==> !IdleExpired(cfg, before.idle[j], began))
  }

  /** What `clean_idle_conns` does between the times began and now: it drops the k oldest, all of them
      expired by its end and nothing else having been expired at its start.  If the closer failed, the
      connections it failed on and those before it are still there and nothing is counted out. */
  ghost predicate CleanDoes(cfg: Config, ok: bool, began: nat, now: nat, before: Shared, after: Shared) {
    var k := |before.idle| - |after.idle|;
    && 0 <= k && after.reqs == before.reqs && after.count == before.count - (if ok then k else 0)
    && exists i :: CleanCuts(cfg, ok, i, k, began, now, before, after)
  }

  lemma CleanStrandsNobody(cfg: Config, ok: bool, began: nat, now: nat, before: Shared, after: Shared)
    requires CleanDoes(cfg, ok, began, now, before, after) && NoStranded(cfg, before)
    ensures NoStranded(cfg, after)
  {
  }

  lemma IdleIsSorted(cfg: Config, s: State)
    requires Reachable(cfg, s)
    ensures Sorted(s.idle)
  {
    InvReachable(cfg, s);
  }

  lemma CleanRefused(cfg: Config, s: State, p: nat)
    requires Reachable(cfg, s) && AllAtRest(s.pcs) && p < |s.pcs| && s.pcs[p].Ready? && s.closed
    ensures Leads(Next(cfg, AllCalls), s, s)
  {
    RestIsUnlocked(cfg, s);
    var s1 := At(s, p, CleanEnter, s.now);
    CallMove(cfg, AllCalls, s, p, CallClean, CleanEnter);
    CleanRefusedMove(cfg, AllCalls, s1, p, Env(s.now, s.now, true, true, true));
    assert s1.pcs[p := Ready] == s.pcs;
    LeadsTrans(Next(cfg, AllCalls), s, s1, At(s1, p, Ready, s.now));
  }

  /** The clean-up p began in state s, at the point where `next` connections are still to be looked at
      and the `removed` ones behind them are gone. */
  function Cleaning(s: State, p: nat, next: nat, removed: nat, now: nat): State
    requires p < |s.pcs| && next + removed <= |s.idle|
  {
    At(s, p, CleanLoop(next, removed, s.idle, s.now), now).(
      idle := Without(s.idle, next, removed),
      closedLog := s.closedLog + Closings(s.idle, next, removed),
      locks := Locks(By(p), By(p), Free, Free))
  }

  /** The connections the clean-up has closed, the youngest first. */
  function Closings(idle: seq<IdleConn>, next: nat, removed: nat): seq<ConnId>
    requires next + removed <= |idle|
    decreases removed
  {
    if removed == 0 then [] else Closings(idle, next + 1, removed - 1) + [idle[next].conn.id]
  }

  /** `clean_idle_conns` holds idle and awaits count. */
  function CleanWaits(s: State, p: nat): State
    requires p < |s.pcs|
  {
    At(s, p, CleanLockCount, s.now).(locks := s.locks.(idle := By(p)))
  }

  lemma CleanEnters(cfg: Config, calls: Calls, s: State, p: nat)
    requires calls.clean && p < |s.pcs| && s.pcs[p].Ready? && !s.closed && s.locks == Unlocked()
    ensures Leads(Next(cfg, calls), s, CleanWaits(s, p))
  {
    var next, env := Next(cfg, calls), Env(s.now, s.now, true, true, true);
    var s1 := At(s, p, CleanEnter, s.now);
    var s2 := At(s1, p, CleanLockIdle, s.now);
    CallMove(cfg, calls, s, p, CallClean, CleanEnter);
    CleanEnterMove(cfg, calls, s1, p, env);
    LeadsTrans(next, s, s1, s2);
    CleanLockIdleMove(cfg, calls, s2, p, env);
    assert s2.pcs[p := CleanLockCount] == s.pcs[p := CleanLockCount];
    LeadsTrans(next, s, s2, CleanWaits(s, p));
  }

  lemma CleanBegins(cfg: Config, calls: Calls, s: State, p: nat)
    requires calls.clean && p < |s.pcs| && s.pcs[p].Ready? && !s.closed && s.locks == Unlocked()
    ensures Leads(Next(cfg, calls), s, Cleaning(s, p, |s.idle|, 0, s.now))
  {
    var next, env := Next(cfg, calls), Env(s.now, s.now, true, true, true);
    var s3 := CleanWaits(s, p);
    var s4 := Cleaning(s, p, |s.idle|, 0, s.now);
    CleanEnters(cfg, calls, s, p);
    CleanLockCountMove(cfg, calls, s3, p, env);
    assert s4.idle == s.idle && s4.closedLog == s.closedLog;
    assert s3.pcs[p := CleanLoop(|s.idle|, 0, s.idle, s.now)] == s4.pcs;
    LeadsTrans(next, s, s3, s4);
  }

  lemma CleanKeepsOne(cfg: Config, calls: Calls, s: State, p: nat, next: nat)
    requires p < |s.pcs| && next < |s.idle| && !IdleExpired(cfg, s.idle[next], s.now)
    requires Leads(Next(cfg, calls), s, Cleaning(s, p, next + 1, 0, s.now))
    ensures Leads(Next(cfg, calls), s, Cleaning(s, p, next, 0, s.now))
  {
    var s1, s2 := Cleaning(s, p, next + 1, 0, s.now), Cleaning(s, p, next, 0, s.now);
    WithoutNone(s.idle, next + 1);
    WithoutNone(s.idle, next);
    CleanKeepMove(cfg, calls, s1, p, Env(s.now, s.now, true, true, true));
    assert s1.pcs[p := s2.pcs[p]] == s2.pcs;
    LeadsTrans(Next(cfg, calls), s, s1, s2);
  }

  lemma {:induction false} CleanKeeps(cfg: Config, calls: Calls, s: State, p: nat, next: nat)
    requires calls.clean && p < |s.pcs| && s.pcs[p].Ready? && !s.closed && s.locks == Unlocked() && next <= |s.idle|
    requires forall j :: next <= j < |s.idle| ==> !IdleExpired(cfg, s.idle[j], s.now)
    ensures Leads(Next(cfg, calls), s, Cleaning(s, p, next, 0, s.now))
    decreases |s.idle| - next
  {
    if next == |s.idle| {
      CleanBegins(cfg, calls, s, p);
    } else {
      CleanKeeps(cfg, calls, s, p, next + 1);
      CleanKeepsOne(cfg, calls, s, p, next);
    }
  }

  lemma ClosesOneMore(log: seq<ConnId>, idle: seq<IdleConn>, next: nat, removed: nat)
    requires next + 1 + removed <= |idle|
    ensures (log + Closings(idle, next + 1, removed)) + [idle[next].conn.id] == log + Closings(idle, next, removed + 1)
  {
  }

  lemma CleaningOneMore(s: State, p: nat, next: nat, removed: nat, t: nat, now: nat)
    requires p < |s.pcs| && next + 1 + removed <= |s.idle|
    ensures var s1 := Cleaning(s, p, next + 1, removed, t);
            && next + 1 <= |s1.idle| && s1.idle[next] == s.idle[next]
            && CleanRemoved(s1, p, now) == Cleaning(s, p, next, removed + 1, now)
  {
    var s1, s2 := Cleaning(s, p, next + 1, removed, t), Cleaning(s, p, next, removed + 1, now);
    CutKeeps(s.idle, next + 1, removed);
    WithoutOneMore(s.idle, next + 1, removed);
    ClosesOneMore(s.closedLog, s.idle, next, removed);
    assert s1.pcs[p := s2.pcs[p]] == s2.pcs;
  }

  lemma CleanRemovesOne(cfg: Config, calls: Calls, s: State, p: nat, next: nat, removed: nat, t: nat, now: nat)
    requires p < |s.pcs| && next + 1 + removed <= |s.idle| && t <= now && IdleExpired(cfg, s.idle[next], now)
    ensures Leads(Next(cfg, calls), Cleaning(s, p, next + 1, removed, t), Cleaning(s, p, next, removed + 1, now))
  {
    CleaningOneMore(s, p, next, removed, t, now);
    CleanRemoveMove(cfg, calls, Cleaning(s, p, next + 1, removed, t), p, Env(now, now, true, true, true));
  }

  /** When the loop that has removed so many stands there. */
  function CleanTime(s: State, removed: nat, now: nat): nat {
    if removed == 0 then s.now else now
  }

  lemma CleanGetsOn(cfg: Config, calls: Calls, s: State, p: nat, next: nat, removed: nat, now: nat)
    requires p < |s.pcs| && next + 1 + removed <= |s.idle| && s.now <= now && IdleExpired(cfg, s.idle[next], now)
    requires Leads(Next(cfg, calls), s, Cleaning(s, p, next + 1, removed, CleanTime(s, removed, now)))
    ensures Leads(Next(cfg, calls), s, Cleaning(s, p, next, removed + 1, now))
  {
    var t := CleanTime(s, removed, now);
    CleanRemovesOne(cfg, calls, s, p, next, removed, t, now);
    LeadsTrans(Next(cfg, calls), s, Cleaning(s, p, next + 1, removed, t), Cleaning(s, p, next, removed + 1, now));
  }

  predicate ExpiredIn(cfg: Config, idle: seq<IdleConn>, from: nat, to: nat, now: nat) {
    to <= |idle| && forall j :: from <= j < to ==> IdleExpired(cfg, idle[j], now)
  }

  lemma ExpiredHead(cfg: Config, idle: seq<IdleConn>, from: nat, to: nat, now: nat)
    requires from < to && ExpiredIn(cfg, idle, from, to, now)
    ensures IdleExpired(cfg, idle[from], now) && ExpiredIn(cfg, idle, from + 1, to, now)
  {
  }

  lemma {:induction false} CleanRemoves(cfg: Config, calls: Calls, s: State, p: nat, next: nat, removed: nat, now: nat)
    requires calls.clean && p < |s.pcs| && s.pcs[p].Ready? && !s.closed && s.locks == Unlocked()
    requires next + removed <= |s.idle|
    requires forall j :: next + removed <= j < |s.idle| ==> !IdleExpired(cfg, s.idle[j], s.now)
    requires s.now <= now && ExpiredIn(cfg, s.idle, next, next + removed, now)
    ensures Leads(Next(cfg, calls), s, Cleaning(s, p, next, removed, CleanTime(s, removed, now)))
    decreases removed
  {
    if removed == 0 {
      CleanKeeps(cfg, calls, s, p, next);
    } else {
      ExpiredHead(cfg, s.idle, next, next + removed, now);
      CleanRemoves(cfg, calls, s, p, next + 1, removed - 1, now);
      CleanGetsOn(cfg, calls, s, p, next, removed - 1, now);
    }
  }

  /** How the clean-up ends: the removed connections are counted out, or the closer has failed on
      the next one. */
  function Cleaned(s: State, p: nat, ok: bool, i: nat, removed: nat, now: nat): State
    requires p < |s.pcs| && i + removed <= |s.idle|
  {
    s.(idle := Without(s.idle, i, removed), count := s.count - (if ok then removed else 0),
       closedLog := s.closedLog + Closings(s.idle, i, removed),
       drift := s.drift + (if ok then 0 else removed), now := now)
  }

  /** Either end, from the loop. */
  lemma CleanedIs(s: State, p: nat, i: nat, removed: nat, t: nat, now: nat)
    requires p < |s.pcs| && s.pcs[p].Ready? && s.locks == Unlocked() && i + removed <= |s.idle|
    ensures CleanDone(Cleaning(s, p, i, removed, t), p, now) == Cleaned(s, p, true, i, removed, now)
    ensures CleanFailed(Cleaning(s, p, i, removed, t), p, now) == Cleaned(s, p, false, i, removed, now)
  {
    assert Cleaning(s, p, i, removed, t).pcs[p := Ready] == s.pcs;
  }

  lemma CleanCountsOut(cfg: Config, calls: Calls, s: State, p: nat, removed: nat, t: nat, now: nat)
    requires p < |s.pcs| && s.pcs[p].Ready? && s.locks == Unlocked() && removed <= |s.idle| && t <= now
    ensures Leads(Next(cfg, calls), Cleaning(s, p, 0, removed, t), Cleaned(s, p, true, 0, removed, now))
  {
    CleanedIs(s, p, 0, removed, t, now);
    CleanDoneMove(cfg, calls, Cleaning(s, p, 0, removed, t), p, Env(now, now, true, true, true));
  }

  lemma CleanGivesUp(cfg: Config, calls: Calls, s: State, p: nat, i: nat, removed: nat, t: nat, now: nat)
    requires p < |s.pcs| && s.pcs[p].Ready? && s.locks == Unlocked() && 0 < i && i + removed <= |s.idle| && t <= now
    requires IdleExpired(cfg, s.idle[i - 1], now)
    ensures Leads(Next(cfg, calls), Cleaning(s, p, i, removed, t), Cleaned(s, p, false, i, removed, now))
  {
    CutKeeps(s.idle, i, removed);
    CleanedIs(s, p, i, removed, t, now);
    CleanFailsMove(cfg, calls, Cleaning(s, p, i, removed, t), p, Env(now, now, false, true, true));
  }

  /** The deque without the block that the clean-up has removed. */
  function Without(idle: seq<IdleConn>, i: nat, removed: nat): seq<IdleConn>
    requires i + removed <= |idle|
  {
    idle[..i] + idle[i + removed..]
  }

  lemma WithoutNone(idle: seq<IdleConn>, i: nat)
    requires i <= |idle|
    ensures Without(idle, i, 0) == idle
  {
  }

  lemma WithoutOneMore(idle: seq<IdleConn>, i: nat, removed: nat)
    requires 0 < i && i + removed <= |idle|
    ensures var rest := Without(idle, i, removed);
            i <= |rest| && rest[..i - 1] + rest[i..] == Without(idle, i - 1, removed + 1)
  {
  }

  lemma CutKeeps(idle: seq<IdleConn>, i: nat, removed: nat)
    requires 0 < i && i + removed <= |idle|
    ensures |Without(idle, i, removed)| >= i && Without(idle, i, removed)[i - 1] == idle[i - 1]
  {
  }

  /** The clean-up loop of a pool that had the deque orig at time began, at time now: i connections to
      go, the `removed` behind them gone. */
  ghost predicate CleanStands(cfg: Config, orig: seq<IdleConn>, i: nat, removed: nat, began: nat, now: nat) {
    && i + removed <= |orig|
    && (removed > 0 ==> forall j :: 0 <= j < i + removed ==> IdleExpired(cfg, orig[j], now))
    && (forall j :: i + removed <= j < |orig| ==> !IdleExpired(cfg, orig[j], began))
  }

  lemma CleanGoesOn(cfg: Config, orig: seq<IdleConn>, i: nat, removed: nat, began: nat, t: nat, now: nat)
    requires Sorted(orig) && CleanStands(cfg, orig, i, removed, began, t) && 0 < i && began <= t <= now
    ensures IdleExpired(cfg, orig[i - 1], now) ==>
              CleanStands(cfg, orig, i - 1, removed + 1, began, now) && CleanStands(cfg, orig, i, removed, began, now)
              && forall j :: 0 <= j < i + removed ==> IdleExpired(cfg, orig[j], now)
    ensures !IdleExpired(cfg, orig[i - 1], now) ==> removed == 0 && CleanStands(cfg, orig, i - 1, removed, began, now)
  {
  }

  /** A clean-up that stopped with i connections to go, all behind them dealt with. */
  lemma CleanRun(cfg: Config, calls: Calls, s: State, p: nat, ok: bool, i: nat, removed: nat, now: nat)
    requires calls.clean && Reachable(cfg, s) && AllAtRest(s.pcs) && p < |s.pcs| && s.pcs[p].Ready? && !s.closed
    requires s.now <= now
    requires CleanStands(cfg, s.idle, i, removed, s.now, now) && (if ok then i == 0 else i > 0)
    requires !ok ==> forall j :: 0 <= j < i + removed ==> IdleExpired(cfg, s.idle[j], now)
    ensures Leads(Next(cfg, calls), s, Cleaned(s, p, ok, i, removed, now))
    ensures CleanDoes(cfg, ok, s.now, now, SharedOf(s), SharedOf(Cleaned(s, p, ok, i, removed, now)))
  {
    RestIsUnlocked(cfg, s);
    var t := CleanTime(s, removed, now);
    CleanRemoves(cfg, calls, s, p, i, removed, now);
    if ok {
      CleanCountsOut(cfg, calls, s, p, removed, t, now);
    } else {
      CleanGivesUp(cfg, calls, s, p, i, removed, t, now);
    }
    LeadsTrans(Next(cfg, calls), s, Cleaning(s, p, i, removed, t), Cleaned(s, p, ok, i, removed, now));
    CleanDoesThis(cfg, ok, i, removed, s.now, now, SharedOf(s), SharedOf(Cleaned(s, p, ok, i, removed, now)));
  }

  lemma CleanDoesThis(cfg: Config, ok: bool, i: nat, removed: nat, began: nat, now: nat, before: Shared, after: Shared)
    requires CleanStands(cfg, before.idle, i, removed, began, now) && (if ok then i == 0 else i > 0)
    requires !ok ==> forall j :: 0 <= j < i + removed ==> IdleExpired(cfg, before.idle[j], now)
    requires after.idle == Without(before.idle, i, removed) && after.reqs == before.reqs
    requires after.count == before.count - if ok then removed else 0
    requires after.shut == before.shut + Closings(before.idle, i, removed)
    ensures CleanDoes(cfg, ok, began, now, before, after)
  {
    assert CleanCuts(cfg, ok, i, |before.idle| - |after.idle|, began, now, before, after);
  }

  // ---------------------------------------------------------------- a whole release as a run

  /** `release` closes the deque from the front, up to the connection on which the closer fails; if it gets
      through, it refuses every waiter and sets the counter to 0, otherwise everything behind stays. */
  predicate ReleaseDoes(ok: bool, before: Shared, after: Shared) {
    if ok then after == Shared([], 0, [], before.shut + Ids(before.idle))
    else
      exists k :: 0 <= k < |before.idle|
        && after == before.(idle := before.idle[k + 1..], shut := before.shut + Ids(before.idle[..k]))
  }

  function Ids(idle: seq<IdleConn>): seq<ConnId> {
    seq(|idle|, i requires 0 <= i < |idle| => idle[i].conn.id)
  }

  lemma IdsStep(idle: seq<IdleConn>, k: nat)
    requires k < |idle|
    ensures Ids(idle[..k + 1]) == Ids(idle[..k]) + [idle[k].conn.id]
  {
  }

  /** The waiters of reqs have been refused. */
  function Refuse(pcs: seq<Pc>, reqs: seq<Request>): (pcs': seq<Pc>)
    ensures |pcs'| == |pcs|
    ensures forall q :: 0 <= q < |pcs| ==> pcs'[q] == if Waiting(q) in reqs then Refused else pcs[q]
  {
    if reqs == [] then pcs
    else
      var last := |reqs| - 1;
      var rest := Refuse(pcs, reqs[..last]);
      assert reqs == reqs[..last] + [reqs[last]];
      if reqs[last].Waiting? && reqs[last].waiter < |pcs| then rest[reqs[last].waiter := Refused] else rest
  }

  lemma RefusedAtRest(pcs: seq<Pc>, reqs: seq<Request>)
    requires AllAtRest(pcs)
    ensures AllAtRest(Refuse(pcs, reqs))
  {
  }

  /** p's `release` of s has closed the first k connections. */
  function Closing(s: State, p: nat, k: nat): State
    requires p < |s.pcs| && k <= |s.idle|
  {
    At(s, p, RelClose, s.now).(
      closed := true, idle := s.idle[k..], closedLog := s.closedLog + Ids(s.idle[..k]),
      locks := Locks(By(p), Free, By(p), Free))
  }

  /** It has closed them all and refused the first d waiters. */
  function Draining(s: State, p: nat, d: nat): State
    requires p < |s.pcs| && d <= |s.reqs|
  {
    s.(closed := true, idle := [], closedLog := s.closedLog + Ids(s.idle), reqs := s.reqs[d..],
       pcs := Refuse(s.pcs, s.reqs[..d])[p := RelDrain], locks := Locks(By(p), Free, By(p), By(p)))
  }

  function Released(s: State): State {
    s.(closed := true, idle := [], closedLog := s.closedLog + Ids(s.idle), reqs := [], count := 0,
       pcs := Refuse(s.pcs, s.reqs))
  }

  function ReleaseFailed(s: State, k: nat): State
    requires k < |s.idle|
  {
    s.(closed := true, idle := s.idle[k + 1..], closedLog := s.closedLog + Ids(s.idle[..k]),
       lost := s.lost + [s.idle[k].conn.id])
  }

  lemma ReleaseBegins(cfg: Config, calls: Calls, s: State, p: nat)
    requires calls.release && p < |s.pcs| && s.pcs[p].Ready? && s.locks == Unlocked()
    ensures Leads(Next(cfg, calls), s, Closing(s, p, 0))
  {
    var s1 := At(s, p, RelEnter, s.now);
    var s2 := At(s1, p, RelLockIdle, s.now).(closed := true, locks := s.locks.(closed := By(p)));
    CallMove(cfg, calls, s, p, CallRelease, RelEnter);
    RelEnterMove(cfg, calls, s1, p, Fair(s.now));
    LeadsTrans(Next(cfg, calls), s, s1, s2);
    RelLockIdleMove(cfg, calls, s2, p, Fair(s.now));
    assert s2.pcs[p := RelClose] == s.pcs[p := RelClose];
    assert s.idle[0..] == s.idle && s.closedLog + Ids(s.idle[..0]) == s.closedLog;
    LeadsTrans(Next(cfg, calls), s, s2, Closing(s, p, 0));
  }

  lemma ReleaseClosesOne(cfg: Config, calls: Calls, s: State, p: nat, k: nat)
    requires p < |s.pcs| && k < |s.idle|
    ensures Leads(Next(cfg, calls), Closing(s, p, k), Closing(s, p, k + 1))
  {
    var s1 := Closing(s, p, k);
    assert s1.idle[0] == s.idle[k] && s1.idle[1..] == s.idle[k + 1..];
    IdsStep(s.idle, k);
    assert s1.closedLog + [s.idle[k].conn.id] == Closing(s, p, k + 1).closedLog;
    RelCloseMove(cfg, calls, s1, p, Fair(s.now));
    assert s1.pcs[p := RelClose] == s1.pcs;
  }

  lemma ReleaseClosesOn(cfg: Config, calls: Calls, s: State, p: nat, k: nat)
    requires p < |s.pcs| && k < |s.idle| && Leads(Next(cfg, calls), s, Closing(s, p, k))
    ensures Leads(Next(cfg, calls), s, Closing(s, p, k + 1))
  {
    ReleaseClosesOne(cfg, calls, s, p, k);
    LeadsTrans(Next(cfg, calls), s, Closing(s, p, k), Closing(s, p, k + 1));
  }

  lemma {:induction false} ReleaseCloses(cfg: Config, calls: Calls, s: State, p: nat, k: nat)
    requires calls.release && p < |s.pcs| && s.pcs[p].Ready? && s.locks == Unlocked() && k <= |s.idle|
    ensures Leads(Next(cfg, calls), s, Closing(s, p, k))
  {
    if k == 0 {
      ReleaseBegins(cfg, calls, s, p);
    } else {
      ReleaseCloses(cfg, calls, s, p, k - 1);
      ReleaseClosesOn(cfg, calls, s, p, k - 1);
    }
  }

  lemma ReleaseFails(cfg: Config, s: State, p: nat, k: nat)
    requires p < |s.pcs| && s.pcs[p].Ready? && s.locks == Unlocked() && k < |s.idle|
    ensures Leads(Next(cfg, AllCalls), s, ReleaseFailed(s, k))
    ensures ReleaseDoes(false, SharedOf(s), SharedOf(ReleaseFailed(s, k)))
  {
    var s1 := Closing(s, p, k);
    ReleaseCloses(cfg, AllCalls, s, p, k);
    assert s1.idle[0] == s.idle[k] && s1.idle[1..] == s.idle[k + 1..];
    RelCloseFailsMove(cfg, AllCalls, s1, p, Fair(s.now).(closerOk := false));
    assert s1.pcs[p := Ready] == s.pcs;
    LeadsTrans(Next(cfg, AllCalls), s, s1, ReleaseFailed(s, k));
  }

  lemma ReleaseTurnsToWaiters(cfg: Config, calls: Calls, s: State, p: nat)
    requires calls.release && p < |s.pcs| && s.pcs[p].Ready? && s.locks == Unlocked()
    ensures Leads(Next(cfg, calls), s, Draining(s, p, 0))
  {
    var s1 := Closing(s, p, |s.idle|);
    var s2 := At(s1, p, RelLockReqs, s.now);
    ReleaseCloses(cfg, calls, s, p, |s.idle|);
    RelEmptyMove(cfg, calls, s1, p, Fair(s.now));
    LeadsTrans(Next(cfg, calls), s, s1, s2);
    RelLockReqsMove(cfg, calls, s2, p, Fair(s.now));
    assert s2.pcs[p := RelDrain] == Draining(s, p, 0).pcs;
    assert s.idle[..|s.idle|] == s.idle && s.reqs[0..] == s.reqs;
    LeadsTrans(Next(cfg, calls), s, s2, Draining(s, p, 0));
  }

  lemma DrainsOne(s: State, p: nat, d: nat)
    requires p < |s.pcs| && s.pcs[p].Ready? && d < |s.reqs|
    ensures var s1, s2 := Draining(s, p, d), Draining(s, p, d + 1);
            && s1.reqs != [] && s1.reqs[0] == s.reqs[d] && s1.reqs[1..] == s2.reqs
            && (s.reqs[d].Gone? ==> s1.pcs[p := RelDrain] == s2.pcs)
            && (s.reqs[d].Waiting? && s.reqs[d].waiter < |s.pcs| && s.reqs[d].waiter != p ==>
                  s1.pcs[s.reqs[d].waiter := Refused][p := RelDrain] == s2.pcs)
  {
    RefuseOneMore(s.pcs, s.reqs, d);
  }

  lemma RefuseOneMore(pcs: seq<Pc>, reqs: seq<Request>, d: nat)
    requires d < |reqs|
    ensures Refuse(pcs, reqs[..d + 1]) ==
              if reqs[d].Waiting? && reqs[d].waiter < |pcs| then Refuse(pcs, reqs[..d])[reqs[d].waiter := Refused]
              else Refuse(pcs, reqs[..d])
  {
    assert reqs[..d + 1][..d] == reqs[..d];
  }

  lemma ReleaseRefusesOne(cfg: Config, calls: Calls, s: State, p: nat, d: nat)
    requires calls.release && Reachable(cfg, s) && p < |s.pcs| && s.pcs[p].Ready? && d < |s.reqs|
    ensures Leads(Next(cfg, calls), Draining(s, p, d), Draining(s, p, d + 1))
  {
    var s1, s2 := Draining(s, p, d), Draining(s, p, d + 1);
    DrainsOne(s, p, d);
    if s.reqs[d].Waiting? {
      WaiterIsParked(cfg, s, d);
      RelDrainMove(cfg, calls, s1, p, s.reqs[d].waiter, Fair(s.now));
    } else {
      RelDrainGoneMove(cfg, calls, s1, p, Fair(s.now));
    }
  }

  lemma {:induction false} ReleaseRefuses(cfg: Config, calls: Calls, s: State, p: nat, d: nat)
    requires calls.release && Reachable(cfg, s) && p < |s.pcs| && s.pcs[p].Ready? && d <= |s.reqs|
    ensures Leads(Next(cfg, calls), Draining(s, p, 0), Draining(s, p, d))
  {
    if d == 0 {
      LeadsRefl(Next(cfg, calls), Draining(s, p, 0));
    } else {
      ReleaseRefuses(cfg, calls, s, p, d - 1);
      ReleaseRefusesOne(cfg, calls, s, p, d - 1);
      LeadsTrans(Next(cfg, calls), Draining(s, p, 0), Draining(s, p, d - 1), Draining(s, p, d));
    }
  }

  lemma ReleaseSucceeds(cfg: Config, calls: Calls, s: State, p: nat)
    requires calls.release && Reachable(cfg, s) && p < |s.pcs| && s.pcs[p].Ready? && s.locks == Unlocked()
    ensures Leads(Next(cfg, calls), s, Released(s))
  {
    var s1 := Draining(s, p, |s.reqs|);
    var s2 := At(s1, p, RelLockCount, s.now);
    ReleaseTurnsToWaiters(cfg, calls, s, p);
    ReleaseRefuses(cfg, calls, s, p, |s.reqs|);
    LeadsTrans(Next(cfg, calls), s, Draining(s, p, 0), s1);
    RelDrainedMove(cfg, calls, s1, p, Fair(s.now));
    LeadsTrans(Next(cfg, calls), s, s1, s2);
    RelDoneMove(cfg, calls, s2, p, Fair(s.now));
    assert s.reqs[..|s.reqs|] == s.reqs;
    ReadyIsNoWaiter(cfg, s, p);
    assert s2.pcs[p := Ready] == Refuse(s.pcs, s.reqs);
    LeadsTrans(Next(cfg, calls), s, s2, Released(s));
  }
}
