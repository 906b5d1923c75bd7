/** Stretches of runs from which the counterexamples of the pool are put together: how callers come to
    take every connection, and how they give them back. */
module PoolRuns {
  import opened Tally
  import opened Transitions
  import opened PoolMachine
  import opened PoolMoves
  import opened PoolInvariants

  /** Time has passed, and the pinger, if there is one, fails. */
  function Late(cfg: Config, now: nat): Env {
    var t := now + cfg.idleTimeout + cfg.maxLifetime + 1;
    Env(t, t, true, false, true)
  }

  lemma LateEvicts(cfg: Config, x: IdleConn, now: nat)
    requires Evicts(cfg) && x.since <= now && x.conn.created <= now
    ensures Evicted(cfg, x, Late(cfg, now))
  {
  }

  /** clean_idle_conns up to the point where it holds idle and awaits count. */
  lemma CleanEntry(cfg: Config, calls: Calls, s: State, p: nat)
    requires calls.clean && p < |s.pcs| && s.pcs[p].Ready?
    requires s.locks.closed.Free? && !s.closed && s.locks.idle.Free?
    ensures Leads(Next(cfg, calls), s, Here(s, p, CleanLockCount).(locks := s.locks.(idle := By(p))))
  {
    var next := Next(cfg, calls);
    var s1 := Here(s, p, CleanEnter);
    var s2 := Here(s1, p, CleanLockIdle);
    CallMove(cfg, calls, s, p, CallClean, CleanEnter);
    CleanEnterMove(cfg, calls, s1, p, Fair(s.now));
    CleanLockIdleMove(cfg, calls, s2, p, Fair(s.now));
    LeadsTrans(next, s, s1, s2);
    LeadsTrans(next, s, s2, Here(s2, p, CleanLockCount).(locks := s.locks.(idle := By(p))));
    assert s.pcs[p := CleanEnter][p := CleanLockIdle][p := CleanLockCount] == s.pcs[p := CleanLockCount];
  }

  /** `release` holds closed and idle. */
  function ReleaseShuts(s: State, p: nat): State
    requires p < |s.pcs|
  {
    Here(s, p, RelClose).(closed := true, locks := s.locks.(closed := By(p), idle := By(p)))
  }

  lemma ReleaseEnters(cfg: Config, calls: Calls, s: State, p: nat)
    requires calls.release && p < |s.pcs| && s.pcs[p].Ready? && s.locks == Unlocked()
    ensures Leads(Next(cfg, calls), s, ReleaseShuts(s, p))
  {
    var next := Next(cfg, calls);
    var s1 := Here(s, p, RelEnter);
    var s2 := Here(s1, p, RelLockIdle).(closed := true, locks := s1.locks.(closed := By(p)));
    CallMove(cfg, calls, s, p, CallRelease, RelEnter);
    RelEnterMove(cfg, calls, s1, p, Fair(s.now));
    RelLockIdleMove(cfg, calls, s2, p, Fair(s.now));
    LeadsTrans(next, s, s1, s2);
    assert s2.pcs[p := RelClose] == s.pcs[p := RelClose];
    LeadsTrans(next, s, s2, ReleaseShuts(s, p));
  }

  /** `release` with an empty deque and no waiters, up to the point where it awaits count. */
  lemma ReleaseEntry(cfg: Config, calls: Calls, s: State, p: nat)
    requires calls.release && p < |s.pcs| && s.pcs[p].Ready? && s.locks == Unlocked() && s.idle == [] && s.reqs == []
    ensures Leads(Next(cfg, calls), s, Here(s, p, RelLockCount).(
              closed := true, locks := Locks(By(p), Free, By(p), By(p))))
  {
    var next := Next(cfg, calls);
    var s3 := ReleaseShuts(s, p);
    var s4 := Here(s3, p, RelLockReqs);
    var s5 := Here(s4, p, RelDrain).(locks := s4.locks.(reqs := By(p)));
    ReleaseEnters(cfg, calls, s, p);
    RelEmptyMove(cfg, calls, s3, p, Fair(s.now));
    RelLockReqsMove(cfg, calls, s4, p, Fair(s.now));
    RelDrainedMove(cfg, calls, s5, p, Fair(s.now));
    LeadsTrans(next, s, s3, s4);
    LeadsTrans(next, s, s4, s5);
    LeadsTrans(next, s, s5, Here(s5, p, RelLockCount));
    assert Here(s5, p, RelLockCount).pcs == s.pcs[p := RelLockCount];
  }

  // ---------------------------------------------------------------- stretches of get and put

  /** A `get` past its check finds the deque empty. */
  lemma FindsEmpty(cfg: Config, calls: Calls, s: State, p: nat)
    requires p < |s.pcs| && s.pcs[p].GetLockIdle? && s.idle == [] && s.locks.idle.Free?
    ensures Leads(Next(cfg, calls), s, Here(s, p, GetLockCount))
  {
    var s1 := Here(s, p, GetScan).(locks := s.locks.(idle := By(p)));
    GetLockIdleMove(cfg, calls, s, p, Fair(s.now));
    ScanEmptyMove(cfg, calls, s1, p, Fair(s.now));
    assert s1.pcs[p := GetLockCount] == s.pcs[p := GetLockCount];
    LeadsTrans(Next(cfg, calls), s, s1, Here(s, p, GetLockCount));
  }

  /** It makes a connection, by whatever way it came there. */
  lemma MadeAnyway(s: State, p: nat, pc: Pc)
    requires p < |s.pcs|
    ensures Made(Here(s, p, pc), p, s.now) == Made(s, p, s.now)
  {
    var h := Holding(Conn(|s.births|, s.now), s.now);
    assert s.pcs[p := pc][p := h] == s.pcs[p := h];
  }

  lemma MakesOne(cfg: Config, calls: Calls, s: State, p: nat)
    requires p < |s.pcs| && s.pcs[p].GetLockIdle? && s.idle == [] && s.count < cfg.maxCap && s.locks == Unlocked()
    ensures Leads(Next(cfg, calls), s, Made(s, p, s.now))
  {
    var s1 := Here(s, p, GetLockCount);
    FindsEmpty(cfg, calls, s, p);
    CreateMove(cfg, calls, s1, p, Fair(s.now));
    MadeAnyway(s, p, GetLockCount);
    LeadsTrans(Next(cfg, calls), s, s1, Made(s, p, s.now));
  }

  /** A `get` that finds the cap reached queues up. */
  lemma Parks(cfg: Config, calls: Calls, s: State, p: nat)
    requires p < |s.pcs| && s.pcs[p].GetLockCount? && s.count >= cfg.maxCap
    requires s.locks.count.Free? && s.locks.reqs.Free?
    ensures Leads(Next(cfg, calls), s, Here(s, p, Parked).(reqs := s.reqs + [Waiting(p)]))
  {
    var s1 := Here(s, p, GetLockReqs).(locks := s.locks.(count := By(p)));
    FullMove(cfg, calls, s, p, Fair(s.now));
    ParkMove(cfg, calls, s1, p, Fair(s.now));
    assert s1.pcs[p := Parked] == s.pcs[p := Parked];
    LeadsTrans(Next(cfg, calls), s, s1, Here(s, p, Parked).(reqs := s.reqs + [Waiting(p)]));
  }

  /** Or it parks. */
  lemma FindsFull(cfg: Config, calls: Calls, s: State, p: nat)
    requires p < |s.pcs| && s.pcs[p].GetLockIdle? && s.idle == [] && s.count >= cfg.maxCap && s.locks == Unlocked()
    ensures Leads(Next(cfg, calls), s, Here(s, p, Parked).(reqs := s.reqs + [Waiting(p)]))
  {
    var s1 := Here(s, p, GetLockCount);
    FindsEmpty(cfg, calls, s, p);
    Parks(cfg, calls, s1, p);
    assert s1.pcs[p := Parked] == s.pcs[p := Parked];
    LeadsTrans(Next(cfg, calls), s, s1, Here(s, p, Parked).(reqs := s.reqs + [Waiting(p)]));
  }

  /** A `get` up to the point where it awaits idle. */
  lemma Enters(cfg: Config, calls: Calls, s: State, p: nat)
    requires p < |s.pcs| && s.pcs[p].Ready? && s.locks.closed.Free? && !s.closed
    ensures Leads(Next(cfg, calls), s, Here(s, p, GetLockIdle))
  {
    var s1 := Here(s, p, GetEnter);
    CallMove(cfg, calls, s, p, CallGet, GetEnter);
    GetEnterMove(cfg, calls, s1, p, Fair(s.now));
    assert s1.pcs[p := GetLockIdle] == s.pcs[p := GetLockIdle];
    LeadsTrans(Next(cfg, calls), s, s1, Here(s, p, GetLockIdle));
  }

  lemma GetEntry(cfg: Config, calls: Calls, s: State, p: nat)
    requires p < |s.pcs| && s.pcs[p].Ready?
    requires s.locks.closed.Free? && !s.closed && s.locks.idle.Free?
    ensures Leads(Next(cfg, calls), s, Here(s, p, GetScan).(locks := s.locks.(idle := By(p))))
  {
    var s1 := Here(s, p, GetLockIdle);
    Enters(cfg, calls, s, p);
    GetLockIdleMove(cfg, calls, s1, p, Fair(s.now));
    assert s1.pcs[p := GetScan] == s.pcs[p := GetScan];
    LeadsTrans(Next(cfg, calls), s, s1, Here(s, p, GetScan).(locks := s.locks.(idle := By(p))));
  }

  /** A `get` that finds the deque empty, up to the point where it awaits count. */
  lemma GetToCount(cfg: Config, calls: Calls, s: State, p: nat)
    requires p < |s.pcs| && s.pcs[p].Ready? && s.idle == []
    requires s.locks.closed.Free? && !s.closed && s.locks.idle.Free?
    ensures Leads(Next(cfg, calls), s, Here(s, p, GetLockCount))
  {
    var s1 := Here(s, p, GetLockIdle);
    Enters(cfg, calls, s, p);
    FindsEmpty(cfg, calls, s1, p);
    assert s1.pcs[p := GetLockCount] == s.pcs[p := GetLockCount];
    LeadsTrans(Next(cfg, calls), s, s1, Here(s, p, GetLockCount));
  }

  /** A whole `get` that creates its connection. */
  lemma GetNew(cfg: Config, calls: Calls, s: State, p: nat)
    requires p < |s.pcs| && s.pcs[p].Ready? && s.idle == [] && s.count < cfg.maxCap && s.locks == Unlocked()
    requires !s.closed
    ensures Leads(Next(cfg, calls), s, Made(s, p, s.now))
  {
    var s1 := Here(s, p, GetLockIdle);
    Enters(cfg, calls, s, p);
    MakesOne(cfg, calls, s1, p);
    MadeAnyway(s, p, GetLockIdle);
    LeadsTrans(Next(cfg, calls), s, s1, Made(s, p, s.now));
  }

  /** A whole `get` that parks, and is dropped. */
  lemma GetDropped(cfg: Config, calls: Calls, s: State, p: nat)
    requires calls.cancel && p < |s.pcs| && s.pcs[p].Ready? && s.idle == [] && s.count >= cfg.maxCap
    requires s.locks == Unlocked() && !s.closed && Waiting(p) !in s.reqs
    ensures Leads(Next(cfg, calls), s, s.(reqs := s.reqs + [Gone]))
  {
    var s1, s2 := Here(s, p, GetLockIdle), Here(s, p, Parked).(reqs := s.reqs + [Waiting(p)]);
    Enters(cfg, calls, s, p);
    FindsFull(cfg, calls, s1, p);
    assert s1.pcs[p := Parked] == s.pcs[p := Parked];
    LeadsTrans(Next(cfg, calls), s, s1, s2);
    Leaves(cfg, calls, s, p);
    LeadsTrans(Next(cfg, calls), s, s2, s.(reqs := s.reqs + [Gone]));
  }

  lemma Leaves(cfg: Config, calls: Calls, s: State, p: nat)
    requires calls.cancel && p < |s.pcs| && s.pcs[p].Ready? && Waiting(p) !in s.reqs
    ensures Leads(Next(cfg, calls), Here(s, p, Parked).(reqs := s.reqs + [Waiting(p)]), s.(reqs := s.reqs + [Gone]))
  {
    var s2 := Here(s, p, Parked).(reqs := s.reqs + [Waiting(p)]);
    DropMove(cfg, calls, s2, p);
    assert s2.pcs[p := Ready] == s.pcs;
    RetiresLast(s.reqs, p);
  }

  lemma RetiresLast(reqs: seq<Request>, p: nat)
    requires Waiting(p) !in reqs
    ensures Restack(reqs + [Waiting(p)], RetireReq(p)) == reqs + [Gone]
  {
  }

  /** A whole `get` served from the deque. */
  lemma GetFromDeque(cfg: Config, calls: Calls, s: State, p: nat)
    requires p < |s.pcs| && s.pcs[p].Ready? && s.idle != [] && !Evicted(cfg, s.idle[0], Fair(s.now))
    requires s.locks.closed.Free? && !s.closed && s.locks.idle.Free?
    ensures Leads(Next(cfg, calls), s, Here(s, p, Holding(s.idle[0].conn, s.now)).(idle := s.idle[1..]))
  {
    var h := Holding(s.idle[0].conn, s.now);
    var s1 := Here(s, p, GetScan).(locks := s.locks.(idle := By(p)));
    GetEntry(cfg, calls, s, p);
    ScanTakeMove(cfg, calls, s1, p, Fair(s.now));
    LeadsTrans(Next(cfg, calls), s, s1, Here(s1, p, h).(idle := s.idle[1..], locks := s1.locks.(idle := Free)));
    assert s.pcs[p := GetScan][p := h] == s.pcs[p := h];
  }

  /** A `put` past its checks. */
  lemma PutToReqs(cfg: Config, calls: Calls, s: State, p: nat)
    requires p < |s.pcs| && s.pcs[p].Holding? && !LifeExpired(cfg, s.pcs[p].conn, s.now)
    requires s.locks.closed.Free? && !s.closed
    ensures Leads(Next(cfg, calls), s, Here(s, p, PutLockReqs(s.pcs[p].conn, s.now)))
  {
    var c := s.pcs[p].conn;
    var s1 := Here(s, p, PutEnter(c));
    CallMove(cfg, calls, s, p, CallPut, PutEnter(c));
    PutEnterMove(cfg, calls, s1, p, Fair(s.now));
    assert s1.pcs[p := PutLockReqs(c, s.now)] == s.pcs[p := PutLockReqs(c, s.now)];
    LeadsTrans(Next(cfg, calls), s, s1, Here(s, p, PutLockReqs(c, s.now)));
  }

  /** From there on to the deque. */
  lemma ReqsToDeque(cfg: Config, calls: Calls, s: State, p: nat)
    requires p < |s.pcs| && s.pcs[p].PutLockReqs? && s.reqs == [] && |s.idle| < cfg.maxIdle
    requires s.locks.reqs.Free? && s.locks.idle.Free?
    ensures Leads(Next(cfg, calls), s, Here(s, p, Ready).(idle := s.idle + [IdleConn(s.pcs[p].conn, s.now)]))
  {
    var c := s.pcs[p].conn;
    var s1 := Here(s, p, PutLockIdle(c)).(locks := s.locks.(reqs := By(p)));
    PutLockReqsMove(cfg, calls, s, p, Fair(s.now));
    PushMove(cfg, calls, s1, p, Fair(s.now));
    assert s1.pcs[p := Ready] == s.pcs[p := Ready];
    LeadsTrans(Next(cfg, calls), s, s1, Here(s, p, Ready).(idle := s.idle + [IdleConn(c, s.now)]));
  }

  /** A `put` without waiters, up to the point where it holds reqs and awaits idle. */
  lemma PutToIdle(cfg: Config, calls: Calls, s: State, p: nat)
    requires p < |s.pcs| && s.pcs[p].Holding? && !LifeExpired(cfg, s.pcs[p].conn, s.now)
    requires s.locks.closed.Free? && !s.closed && s.locks.reqs.Free? && s.reqs == []
    ensures Leads(Next(cfg, calls), s,
              Here(s, p, PutLockIdle(s.pcs[p].conn)).(locks := s.locks.(reqs := By(p))))
  {
    var c := s.pcs[p].conn;
    var s1 := Here(s, p, PutLockReqs(c, s.now));
    PutToReqs(cfg, calls, s, p);
    PutLockReqsMove(cfg, calls, s1, p, Fair(s.now));
    assert s1.pcs[p := PutLockIdle(c)] == s.pcs[p := PutLockIdle(c)];
    LeadsTrans(Next(cfg, calls), s, s1, Here(s, p, PutLockIdle(c)).(locks := s.locks.(reqs := By(p))));
  }

  /** A whole `put` that returns its connection to the deque. */
  lemma PutToDeque(cfg: Config, calls: Calls, s: State, p: nat)
    requires p < |s.pcs| && s.pcs[p].Holding? && !LifeExpired(cfg, s.pcs[p].conn, s.now)
    requires s.locks.closed.Free? && !s.closed && s.locks.reqs.Free? && s.reqs == []
    requires s.locks.idle.Free? && |s.idle| < cfg.maxIdle
    ensures Leads(Next(cfg, calls), s, Here(s, p, Ready).(idle := s.idle + [IdleConn(s.pcs[p].conn, s.now)]))
  {
    var c := s.pcs[p].conn;
    var s1 := Here(s, p, PutLockReqs(c, s.now));
    PutToReqs(cfg, calls, s, p);
    ReqsToDeque(cfg, calls, s1, p);
    assert s1.pcs[p := Ready] == s.pcs[p := Ready];
    LeadsTrans(Next(cfg, calls), s, s1, Here(s, p, Ready).(idle := s.idle + [IdleConn(c, s.now)]));
  }

  // ---------------------------------------------------------------- taking every connection

  function Zeros(n: nat): seq<nat> {
    seq(n, _ => 0)
  }

  function Numbers(j: nat): seq<ConnId> {
    seq(j, i requires 0 <= i => i)
  }

  /** The connections from number k on, in the deque since time 0. */
  function IdleFrom(k: nat, n: nat): seq<IdleConn> {
    seq(if k < n then n - k else 0, i requires 0 <= i => IdleConn(Conn(k + i, 0), 0))
  }

  /** n callers, the first k of which hold a connection each. */
  function Holders(n: nat, k: nat): seq<Pc> {
    seq(n, i requires 0 <= i => if i < k then Holding(Conn(i, 0), 0) else Ready)
  }

  function Took(cfg: Config, n: nat, k: nat): State {
    State(IdleFrom(k, cfg.initialCap), Max(cfg.initialCap, k), false, [], Unlocked(),
          Holders(n, k), 0, Zeros(Max(cfg.initialCap, k)), [], [], 0)
  }

  lemma NextHolder(n: nat, k: nat)
    requires k < n
    ensures Holders(n, k)[k := Holding(Conn(k, 0), 0)] == Holders(n, k + 1)
  {
  }

  lemma NextIdle(k: nat, n: nat)
    requires k < n
    ensures IdleFrom(k, n)[0] == IdleConn(Conn(k, 0), 0) && IdleFrom(k, n)[1..] == IdleFrom(k + 1, n)
  {
  }

  lemma TakeIdle(cfg: Config, calls: Calls, n: nat, k: nat)
    requires k < cfg.initialCap && k < n
    ensures Leads(Next(cfg, calls), Took(cfg, n, k), Took(cfg, n, k + 1))
  {
    NextHolder(n, k);
    NextIdle(k, cfg.initialCap);
    GetFromDeque(cfg, calls, Took(cfg, n, k), k);
  }

  lemma TakeNew(cfg: Config, calls: Calls, n: nat, k: nat)
    requires cfg.initialCap <= k < cfg.maxCap && k < n
    ensures Leads(Next(cfg, calls), Took(cfg, n, k), Took(cfg, n, k + 1))
  {
    NextHolder(n, k);
    GetNew(cfg, calls, Took(cfg, n, k), k);
    assert Zeros(k) + [0] == Zeros(k + 1);
    assert IdleFrom(k, cfg.initialCap) == IdleFrom(k + 1, cfg.initialCap);
  }

  lemma {:induction false} TakeAll(cfg: Config, calls: Calls, n: nat, k: nat)
    requires k <= Capacity(cfg) && k <= n
    ensures Leads(Next(cfg, calls), Took(cfg, n, 0), Took(cfg, n, k))
  {
    if k == 0 {
      LeadsRefl(Next(cfg, calls), Took(cfg, n, 0));
    } else {
      TakeAll(cfg, calls, n, k - 1);
      if k <= cfg.initialCap {
        TakeIdle(cfg, calls, n, k - 1);
      } else {
        TakeNew(cfg, calls, n, k - 1);
      }
      LeadsTrans(Next(cfg, calls), Took(cfg, n, 0), Took(cfg, n, k - 1), Took(cfg, n, k));
    }
  }

  /** Of m holders among n callers the first j have put back, and caller m, whose `get` found the
      deque empty, awaits count. */
  function Givers(n: nat, m: nat, j: nat): seq<Pc> {
    seq(n, i requires 0 <= i =>
      if i < j then Ready else if i < m then Holding(Conn(i, 0), 0) else if i == m then GetLockCount else Ready)
  }

  function GaveBack(cfg: Config, n: nat, j: nat): State {
    State(IdleFrom(0, j), Capacity(cfg), false, [], Unlocked(),
          Givers(n, Capacity(cfg), j), 0, Zeros(Capacity(cfg)), [], [], 0)
  }

  lemma GiveBackNone(cfg: Config, calls: Calls, n: nat)
    requires Capacity(cfg) < n
    ensures Leads(Next(cfg, calls), Took(cfg, n, 0), GaveBack(cfg, n, 0))
  {
    var m := Capacity(cfg);
    TakeAll(cfg, calls, n, m);
    GetToCount(cfg, calls, Took(cfg, n, m), m);
    LeadsTrans(Next(cfg, calls), Took(cfg, n, 0), Took(cfg, n, m), Here(Took(cfg, n, m), m, GetLockCount));
    assert Holders(n, m)[m := GetLockCount] == Givers(n, m, 0);
    assert IdleFrom(m, cfg.initialCap) == IdleFrom(0, 0);
  }

  lemma NextGiver(n: nat, m: nat, j: nat)
    requires j < m < n
    ensures Givers(n, m, j)[j := Ready] == Givers(n, m, j + 1)
    ensures IdleFrom(0, j) + [IdleConn(Conn(j, 0), 0)] == IdleFrom(0, j + 1)
  {
  }

  lemma GiveBackOne(cfg: Config, calls: Calls, n: nat, j: nat)
    requires j < Capacity(cfg) < n && j < cfg.maxIdle
    ensures Leads(Next(cfg, calls), GaveBack(cfg, n, j), GaveBack(cfg, n, j + 1))
  {
    NextGiver(n, Capacity(cfg), j);
    PutToDeque(cfg, calls, GaveBack(cfg, n, j), j);
  }

  lemma {:induction false} GiveBack(cfg: Config, calls: Calls, n: nat, j: nat)
    requires j <= Capacity(cfg) < n && j <= cfg.maxIdle
    ensures Leads(Next(cfg, calls), Took(cfg, n, 0), GaveBack(cfg, n, j))
  {
    if j == 0 {
      GiveBackNone(cfg, calls, n);
    } else {
      GiveBack(cfg, calls, n, j - 1);
      GiveBackOne(cfg, calls, n, j - 1);
      LeadsTrans(Next(cfg, calls), Took(cfg, n, 0), GaveBack(cfg, n, j - 1), GaveBack(cfg, n, j));
    }
  }

  lemma TookIsInit(cfg: Config, n: nat)
    ensures Init(cfg, Took(cfg, n, 0))
  {
  }

  /** A reachable state leads to reachable states. */
  lemma ReachableFurther(cfg: Config, calls: Calls, s: State, t: State)
    requires ReachableBy(cfg, calls, s) && Leads(Next(cfg, calls), s, t)
    ensures ReachableBy(cfg, calls, t)
  {
    var s0 :| Init(cfg, s0) && Leads(Next(cfg, calls), s0, s);
    LeadsTrans(Next(cfg, calls), s0, s, t);
  }

  lemma TookIsReachable(cfg: Config, calls: Calls, n: nat, k: nat)
    requires k <= Capacity(cfg) && k <= n
    ensures ReachableBy(cfg, calls, Took(cfg, n, k))
  {
    TookIsInit(cfg, n);
    TakeAll(cfg, calls, n, k);
  }

  lemma GaveBackIsReachable(cfg: Config, calls: Calls, n: nat, j: nat)
    requires j <= Capacity(cfg) < n && j <= cfg.maxIdle
    ensures ReachableBy(cfg, calls, GaveBack(cfg, n, j))
  {
    TookIsInit(cfg, n);
    GiveBack(cfg, calls, n, j);
  }
}
