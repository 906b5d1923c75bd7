/** Pools that are used up: somebody waits, and there is neither a connection nor room for one.  What that
    is, and the runs that come to it. */
module PoolExhaustionRuns {
  import opened Tally
  import opened Transitions
  import opened PoolMachine
  import opened PoolMoves
  import opened PoolEffects
  import opened PoolInvariants
  import opened PoolOperations
  import opened PoolRuns
  import opened PoolCap

  /** All calls are over or parked, the pool is open, and somebody is parked whom no connection can reach:
      none is left, and the counter is at the cap. */
  ghost predicate Exhausted(cfg: Config, s: State) {
    AllAtRest(s.pcs) && !s.closed && HasWaiter(s.reqs) && Around(s) == 0 && s.count >= cfg.maxCap
  }

  ghost predicate CanExhaust(cfg: Config, calls: Calls) {
    exists s :: ReachableBy(cfg, calls, s) && Exhausted(cfg, s)
  }

  /** There are no connections, or each can be lost without being counted out: as the deque has no room, or
      its waiter leaves; or so many of them that the others, thrown away from the deque, do not bring the
      counter below the cap. */
  predicate Exhausts(cfg: Config, calls: Calls) {
    || Capacity(cfg) == 0 || cfg.maxIdle == 0 || calls.cancel
    || (&& Evicts(cfg)
        && (|| cfg.maxCap == 0
            || cfg.maxIdle + cfg.maxCap <= cfg.initialCap
            || (calls.clean && cfg.idleTimeout > 0 && cfg.maxCap < cfg.initialCap)))
  }

  // ---------------------------------------------------------------- losing connections

  /** Of k holders the first j have lost their connection, and it is still counted. */
  function Lossy(n: nat, k: nat, j: nat): seq<Pc> {
    seq(n, i requires 0 <= i => if i < j then Ready else if i < k then Holding(Conn(i, 0), 0) else Ready)
  }

  function Spent(cfg: Config, n: nat, k: nat, j: nat): State {
    Took(cfg, n, k).(pcs := Lossy(n, k, j), lost := Numbers(j), drift := j)
  }

  lemma SpentNone(cfg: Config, calls: Calls, n: nat, k: nat)
    requires k <= Capacity(cfg) && k <= n
    ensures ReachableBy(cfg, calls, Spent(cfg, n, k, 0))
  {
    TookIsReachable(cfg, calls, n, k);
    assert Lossy(n, k, 0) == Holders(n, k);
    assert Spent(cfg, n, k, 0) == Took(cfg, n, k);
  }

  lemma NextLost(n: nat, k: nat, j: nat)
    requires j < k <= n
    ensures Lossy(n, k, j)[j] == Holding(Conn(j, 0), 0) && Lossy(n, k, j)[j := Ready] == Lossy(n, k, j + 1)
    ensures Numbers(j) + [j] == Numbers(j + 1)
  {
  }

  /** A `put` finds the deque full, and the closer fails. */
  lemma LosesByOverflow(cfg: Config, calls: Calls, n: nat, k: nat, j: nat)
    requires j < k <= n && cfg.maxIdle <= |IdleFrom(k, cfg.initialCap)|
    ensures Leads(Next(cfg, calls), Spent(cfg, n, k, j), Spent(cfg, n, k, j + 1))
  {
    NextLost(n, k, j);
    PutFailsToClose(cfg, calls, Spent(cfg, n, k, j), j, Conn(j, 0), 0);
  }

  /** A `get` parks, a `put` serves it, and it is dropped. */
  lemma LosesByDropping(cfg: Config, calls: Calls, n: nat, j: nat)
    requires calls.cancel && j < Capacity(cfg) < n
    ensures Leads(Next(cfg, calls), Spent(cfg, n, Capacity(cfg), j), Spent(cfg, n, Capacity(cfg), j + 1))
  {
    var g, c := Capacity(cfg), Conn(j, 0);
    var s := Spent(cfg, n, g, j);
    var s1 := Here(s, g, Parked).(reqs := [Waiting(g)]);
    QueuesUp(cfg, calls, s, g);
    var s2 := AfterHandOver(s1, j, g, c, 0);
    PutHandsOver(cfg, calls, s1, j, g, c, 0);
    LeadsTrans(Next(cfg, calls), s, s1, s2);
    DropServedMove(cfg, calls, s2, g);
    NextLost(n, g, j);
    assert s2.pcs[g := Ready] == s.pcs[j := Ready];
    LeadsTrans(Next(cfg, calls), s, s2, Spent(cfg, n, g, j + 1));
  }

  lemma QueuesUp(cfg: Config, calls: Calls, s: State, g: nat)
    requires g < |s.pcs| && s.pcs[g].Ready? && s.idle == [] && s.count >= cfg.maxCap && s.reqs == []
    requires s.locks == Unlocked() && !s.closed
    ensures Leads(Next(cfg, calls), s, Here(s, g, Parked).(reqs := [Waiting(g)]))
  {
    var s1 := Here(s, g, GetLockIdle);
    Enters(cfg, calls, s, g);
    FindsFull(cfg, calls, s1, g);
    assert s1.pcs[g := Parked] == s.pcs[g := Parked];
    assert s.reqs + [Waiting(g)] == [Waiting(g)];
    LeadsTrans(Next(cfg, calls), s, s1, Here(s, g, Parked).(reqs := [Waiting(g)]));
  }

  predicate Loses(cfg: Config, calls: Calls, k: nat) {
    cfg.maxIdle <= |IdleFrom(k, cfg.initialCap)| || (calls.cancel && k == Capacity(cfg))
  }

  lemma LosesOne(cfg: Config, calls: Calls, n: nat, k: nat, j: nat)
    requires Loses(cfg, calls, k) && j < k <= Capacity(cfg) < n && ReachableBy(cfg, calls, Spent(cfg, n, k, j))
    ensures ReachableBy(cfg, calls, Spent(cfg, n, k, j + 1))
  {
    if cfg.maxIdle <= |IdleFrom(k, cfg.initialCap)| {
      LosesByOverflow(cfg, calls, n, k, j);
    } else {
      LosesByDropping(cfg, calls, n, j);
    }
    ReachableFurther(cfg, calls, Spent(cfg, n, k, j), Spent(cfg, n, k, j + 1));
  }

  lemma {:induction false} SpentIsReachable(cfg: Config, calls: Calls, n: nat, k: nat, j: nat)
    requires Loses(cfg, calls, k) && j <= k <= Capacity(cfg) < n
    ensures ReachableBy(cfg, calls, Spent(cfg, n, k, j))
  {
    if j == 0 {
      SpentNone(cfg, calls, n, k);
    } else {
      SpentIsReachable(cfg, calls, n, k, j - 1);
      LosesOne(cfg, calls, n, k, j - 1);
    }
  }

  // ---------------------------------------------------------------- and throwing away the others

  predicate AllOld(idle: seq<IdleConn>, now: nat) {
    forall i :: 0 <= i < |idle| ==> idle[i].since <= now && idle[i].conn.created <= now
  }

  ghost predicate Scanning(s: State, g: nat) {
    && g < |s.pcs| && s.pcs[g].GetScan? && s.locks == Unlocked().(idle := By(g)) && !s.closed && s.reqs == []
    && AllOld(s.idle, s.now)
  }

  lemma EvictsFront(cfg: Config, calls: Calls, s: State, g: nat) returns (s': State)
    requires Scanning(s, g) && s.idle != [] && Evicts(cfg) && ReachableBy(cfg, calls, s)
    ensures ReachableBy(cfg, calls, s') && Scanning(s', g) && s'.pcs == s.pcs
    ensures s'.idle == s.idle[1..] && s'.count == s.count - 1
  {
    var env := Late(cfg, s.now);
    LateEvicts(cfg, s.idle[0], s.now);
    EvictMoves(cfg, calls, s, g, env);
    s' := AfterEvict(s, g, env);
    assert s.pcs[g := GetScan] == s.pcs;
    ReachableFurther(cfg, calls, s, s');
  }

  lemma EvictsAll(cfg: Config, calls: Calls, s: State, g: nat) returns (s': State)
    requires Scanning(s, g) && (s.idle == [] || Evicts(cfg)) && ReachableBy(cfg, calls, s)
    ensures ReachableBy(cfg, calls, s') && Scanning(s', g) && s'.pcs == s.pcs
    ensures s'.idle == [] && s'.count == s.count - |s.idle|
    decreases |s.idle|
  {
    s' := s;
    if s.idle != [] {
      s' := EvictsFront(cfg, calls, s, g);
      s' := EvictsAll(cfg, calls, s', g);
    }
  }

  lemma ScansAndParks(cfg: Config, calls: Calls, s: State, g: nat) returns (s': State)
    requires Scanning(s, g) && s.idle == [] && s.count >= cfg.maxCap && ReachableBy(cfg, calls, s)
    ensures ReachableBy(cfg, calls, s') && s'.pcs == s.pcs[g := Parked] && s'.reqs == [Waiting(g)]
    ensures s'.idle == [] && s'.count == s.count && !s'.closed
  {
    var s1 := Here(s, g, GetLockCount).(locks := s.locks.(idle := Free));
    ScanEmptyMove(cfg, calls, s, g, Fair(s.now));
    Parks(cfg, calls, s1, g);
    s' := Here(s1, g, Parked).(reqs := s1.reqs + [Waiting(g)]);
    LeadsTrans(Next(cfg, calls), s, s1, s');
    ReachableFurther(cfg, calls, s, s');
    assert s1.pcs[g := Parked] == s.pcs[g := Parked];
  }

  ghost predicate AllReady(pcs: seq<Pc>) {
    forall p :: 0 <= p < |pcs| ==> pcs[p].Ready?
  }

  lemma OneParked(pcs: seq<Pc>, g: nat)
    requires AllReady(pcs) && g < |pcs|
    ensures AllAtRest(pcs[g := Parked]) && Sum(pcs[g := Parked], Weight) == 0
  {
    SumZero(pcs[g := Parked], Weight);
  }

  /** A last `get` throws away what is in the deque, and parks. */
  lemma ParksAtLast(cfg: Config, calls: Calls, s: State, g: nat) returns (s': State)
    requires ReachableBy(cfg, calls, s) && s.locks == Unlocked() && !s.closed && s.reqs == [] && AllOld(s.idle, s.now)
    requires s.idle == [] || Evicts(cfg)
    requires s.count - |s.idle| >= cfg.maxCap && g < |s.pcs| && AllReady(s.pcs)
    ensures ReachableBy(cfg, calls, s') && Exhausted(cfg, s')
  {
    var s1 := Here(s, g, GetScan).(locks := s.locks.(idle := By(g)));
    GetEntry(cfg, calls, s, g);
    ReachableFurther(cfg, calls, s, s1);
    var s2 := EvictsAll(cfg, calls, s1, g);
    s' := ScansAndParks(cfg, calls, s2, g);
    assert s1.pcs[g := Parked] == s.pcs[g := Parked];
    OneParked(s.pcs, g);
    assert s'.reqs[0].Waiting?;
  }

  // ---------------------------------------------------------------- the ways to be used up

  lemma ExhaustsByLosing(cfg: Config, calls: Calls, k: nat) returns (s: State)
    requires Loses(cfg, calls, k) && k <= Capacity(cfg)
    requires IdleFrom(k, cfg.initialCap) == [] || Evicts(cfg)
    requires Max(cfg.initialCap, k) - |IdleFrom(k, cfg.initialCap)| >= cfg.maxCap
    ensures ReachableBy(cfg, calls, s) && Exhausted(cfg, s)
  {
    var n := Capacity(cfg) + 1;
    SpentIsReachable(cfg, calls, n, k, k);
    s := ParksAtLast(cfg, calls, Spent(cfg, n, k, k), 0);
  }

  /** With nothing in the hands of callers: what is in the deque, if anything, is all thrown away. */
  lemma ExhaustsByEviction(cfg: Config, calls: Calls) returns (s: State)
    requires (Evicts(cfg) || cfg.initialCap == 0) && cfg.maxCap == 0
    ensures ReachableBy(cfg, calls, s) && Exhausted(cfg, s)
  {
    TookIsReachable(cfg, calls, 1, 0);
    s := ParksAtLast(cfg, calls, Took(cfg, 1, 0), 0);
  }

  /** A clean-up drops all but the oldest, on which the closer fails, and counts none of them out. */
  lemma CleansAllButOne(cfg: Config, calls: Calls) returns (s: State)
    requires calls.clean && cfg.idleTimeout > 0 && 1 <= cfg.maxCap < cfg.initialCap
    ensures ReachableBy(cfg, calls, s) && s.locks == Unlocked() && !s.closed && s.reqs == [] && AllReady(s.pcs)
    ensures |s.pcs| > 0 && |s.idle| == 1 && s.count == cfg.initialCap && AllOld(s.idle, s.now)
  {
    var s0, removed, now := Took(cfg, 1, 0), cfg.initialCap - 1, cfg.idleTimeout + 1;
    TookIsReachable(cfg, calls, 1, 0);
    ReachableAnyway(cfg, calls, s0);
    CleanRun(cfg, calls, s0, 0, false, 1, removed, now);
    s := Cleaned(s0, 0, false, 1, removed, now);
    ReachableFurther(cfg, calls, s0, s);
    assert s.idle == s0.idle[..1];
  }

  lemma ExhaustsByCleaning(cfg: Config, calls: Calls) returns (s: State)
    requires calls.clean && cfg.idleTimeout > 0 && 1 <= cfg.maxCap < cfg.initialCap && Evicts(cfg)
    ensures ReachableBy(cfg, calls, s) && Exhausted(cfg, s)
  {
    var s1 := CleansAllButOne(cfg, calls);
    s := ParksAtLast(cfg, calls, s1, 0);
  }

  lemma CanBeExhausted(cfg: Config, calls: Calls)
    requires Exhausts(cfg, calls)
    ensures CanExhaust(cfg, calls)
  {
    var s;
    if cfg.maxCap == 0 && (Evicts(cfg) || cfg.initialCap == 0) {
      s := ExhaustsByEviction(cfg, calls);
    } else if cfg.maxIdle == 0 || calls.cancel {
      s := ExhaustsByLosing(cfg, calls, Capacity(cfg));
    } else if cfg.maxIdle + cfg.maxCap <= cfg.initialCap {
      s := ExhaustsByLosing(cfg, calls, cfg.initialCap - cfg.maxIdle);
    } else {
      s := ExhaustsByCleaning(cfg, calls);
    }
  }
}
