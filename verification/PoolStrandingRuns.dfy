/** Waiters that are left waiting while the pool could serve them: what that is, and the runs that come
    to it. */
module PoolStrandingRuns {
  import opened Tally
  import opened Transitions
  import opened PoolMachine
  import opened PoolMoves
  import opened PoolEffects
  import opened PoolInvariants
  import opened PoolOperations
  import opened PoolRuns
  import opened PoolRelease

  /** All calls are over or parked, the pool is open, and somebody is parked beside an idle connection or
      under a counter below the cap. */
  ghost predicate Stranded(cfg: Config, s: State) {
    AllAtRest(s.pcs) && !s.closed && !NoStranded(cfg, SharedOf(s))
  }

  ghost predicate CanStrand(cfg: Config, calls: Calls) {
    exists s :: ReachableBy(cfg, calls, s) && Stranded(cfg, s)
  }

  /** There are connections, and either one can be put back beside a `get` that is about to park, or one
      can be closed while somebody waits and bring the counter below the cap. */
  predicate Strands(cfg: Config, calls: Calls) {
    && Capacity(cfg) >= 1
    && (cfg.maxIdle >= 1 || (cfg.maxCap >= 1 && (cfg.maxLifetime > 0 || calls.cancel)))
  }

  // ---------------------------------------------------------------- beside a deque

  /** The first j holders have put back, and the `get` that found the deque empty parks. */
  function Beside(cfg: Config, n: nat, j: nat): State
    requires Capacity(cfg) < n
  {
    Here(GaveBack(cfg, n, j), Capacity(cfg), Parked).(reqs := [Waiting(Capacity(cfg))])
  }

  lemma BesideIsReachable(cfg: Config, calls: Calls, n: nat, j: nat)
    requires j <= Capacity(cfg) < n && j <= cfg.maxIdle
    ensures ReachableBy(cfg, calls, Beside(cfg, n, j))
  {
    var s, g := GaveBack(cfg, n, j), Capacity(cfg);
    GaveBackIsReachable(cfg, calls, n, j);
    Parks(cfg, calls, s, g);
    assert s.reqs + [Waiting(g)] == [Waiting(g)];
    ReachableFurther(cfg, calls, s, Beside(cfg, n, j));
  }

  lemma StrandsBesideDeque(cfg: Config, calls: Calls)
    requires 1 <= Capacity(cfg) && 1 <= cfg.maxIdle
    ensures CanStrand(cfg, calls)
  {
    var s := Beside(cfg, Capacity(cfg) + 1, 1);
    BesideIsReachable(cfg, calls, Capacity(cfg) + 1, 1);
    assert s.reqs[0].Waiting?;
    assert Stranded(cfg, s);
  }

  /** At worst nobody is left who could serve: if the deque has room for all connections, they can all be
      in it, none closed or lost, while somebody waits. */
  lemma WaitsBesideAll(cfg: Config, calls: Calls) returns (s: State)
    requires 1 <= Capacity(cfg) <= cfg.maxIdle
    ensures ReachableBy(cfg, calls, s) && Stranded(cfg, s)
    ensures |s.idle| == s.count == Capacity(cfg) && s.closedLog == [] && s.lost == []
    ensures forall p :: 0 <= p < |s.pcs| ==> s.pcs[p].Ready? || s.pcs[p].Parked?
  {
    var c := Capacity(cfg);
    s := Beside(cfg, c + 1, c);
    BesideIsReachable(cfg, calls, c + 1, c);
    assert s.reqs[0].Waiting?;
  }

  // ---------------------------------------------------------------- under the cap

  function Gones(k: nat): seq<Request> {
    seq(k, _ => Gone)
  }

  /** Caller m waits, with k deserted entries above it; of the m holders j had their connection closed. */
  function Fewer(cfg: Config, n: nat, k: nat, j: nat, now: nat): State
    requires j <= Capacity(cfg)
  {
    var m := Capacity(cfg);
    GaveBack(cfg, n, 0).(
      reqs := [Waiting(m)] + Gones(k), count := m - j, closedLog := Numbers(j), now := now,
      pcs := seq(n, i requires 0 <= i =>
               if i < j then Ready else if i < m then Holding(Conn(i, 0), 0) else if i == m then Parked else Ready))
  }

  lemma FewerNone(cfg: Config, calls: Calls, n: nat)
    requires Capacity(cfg) < n
    ensures ReachableBy(cfg, calls, Fewer(cfg, n, 0, 0, 0))
  {
    BesideIsReachable(cfg, calls, n, 0);
    assert Beside(cfg, n, 0).pcs == Fewer(cfg, n, 0, 0, 0).pcs;
    assert Fewer(cfg, n, 0, 0, 0) == Beside(cfg, n, 0);
  }

  /** Another `get` queues up above and is dropped. */
  lemma DesertsOnce(cfg: Config, calls: Calls, n: nat, k: nat)
    requires calls.cancel && Capacity(cfg) + 1 < n && ReachableBy(cfg, calls, Fewer(cfg, n, k, 0, 0))
    ensures ReachableBy(cfg, calls, Fewer(cfg, n, k + 1, 0, 0))
  {
    var s := Fewer(cfg, n, k, 0, 0);
    GetDropped(cfg, calls, s, Capacity(cfg) + 1);
    assert s.reqs + [Gone] == Fewer(cfg, n, k + 1, 0, 0).reqs;
    ReachableFurther(cfg, calls, s, Fewer(cfg, n, k + 1, 0, 0));
  }

  lemma {:induction false} Deserts(cfg: Config, calls: Calls, n: nat, k: nat)
    requires calls.cancel && Capacity(cfg) + 1 < n
    ensures ReachableBy(cfg, calls, Fewer(cfg, n, k, 0, 0))
  {
    if k == 0 {
      FewerNone(cfg, calls, n);
    } else {
      Deserts(cfg, calls, n, k - 1);
      DesertsOnce(cfg, calls, n, k - 1);
    }
  }

  lemma ClosesOne(cfg: Config, n: nat, k: nat, j: nat, now: nat)
    requires j < Capacity(cfg) < n
    ensures var s := Fewer(cfg, n, k, j, now);
            && s.pcs[j := Ready] == Fewer(cfg, n, k, j + 1, now).pcs
            && s.closedLog + [j] == Fewer(cfg, n, k, j + 1, now).closedLog
  {
  }

  /** A `put` closes its connection, which is too old. */
  lemma RetiresOne(cfg: Config, calls: Calls, n: nat, j: nat, now: nat)
    requires cfg.maxLifetime > 0 && j < Capacity(cfg) < n && now <= cfg.maxLifetime + 1
    ensures var t := cfg.maxLifetime + 1;
            Leads(Next(cfg, calls), Fewer(cfg, n, 0, j, now), Fewer(cfg, n, 0, j + 1, t))
  {
    var s, t := Fewer(cfg, n, 0, j, now), cfg.maxLifetime + 1;
    ClosesOne(cfg, n, 0, j, now);
    PutRetires(cfg, calls, s, j, Conn(j, 0), t, true);
    assert AfterDiscard(s, j, Conn(j, 0), t, true) == Fewer(cfg, n, 0, j + 1, t);
  }

  /** A `put` closes its connection, as the newest waiter has gone. */
  lemma FindsOneGone(cfg: Config, calls: Calls, n: nat, k: nat, j: nat)
    requires j < Capacity(cfg) < n
    ensures Leads(Next(cfg, calls), Fewer(cfg, n, k + 1, j, 0), Fewer(cfg, n, k, j + 1, 0))
  {
    var s := Fewer(cfg, n, k + 1, j, 0);
    ClosesOne(cfg, n, k, j, 0);
    assert s.reqs[..|s.reqs| - 1] == [Waiting(Capacity(cfg))] + Gones(k);
    PutUndelivered(cfg, calls, s, j, Conn(j, 0), 0, true);
    assert AfterDiscard(Popped(s), j, Conn(j, 0), 0, true) == Fewer(cfg, n, k, j + 1, 0);
  }

  /** The time at which the run below has closed j connections. */
  function Hour(cfg: Config, j: nat): nat {
    if cfg.maxLifetime > 0 && j > 0 then cfg.maxLifetime + 1 else 0
  }

  /** The number of deserted entries it has left. */
  function Left(cfg: Config, k: nat): nat {
    if cfg.maxLifetime > 0 then 0 else k
  }

  lemma {:induction false} FewerIsReachable(cfg: Config, calls: Calls, n: nat, k: nat, j: nat)
    requires j <= Capacity(cfg) && Capacity(cfg) + 1 < n && (cfg.maxLifetime > 0 || calls.cancel)
    ensures ReachableBy(cfg, calls, Fewer(cfg, n, Left(cfg, k), j, Hour(cfg, j)))
    decreases j
  {
    if j > 0 {
      FewerIsReachable(cfg, calls, n, k + 1, j - 1);
      FewerStep(cfg, calls, n, k, j - 1);
      ReachableFurther(cfg, calls, Fewer(cfg, n, Left(cfg, k + 1), j - 1, Hour(cfg, j - 1)),
                       Fewer(cfg, n, Left(cfg, k), j, Hour(cfg, j)));
    } else if cfg.maxLifetime > 0 {
      FewerNone(cfg, calls, n);
    } else {
      Deserts(cfg, calls, n, k);
    }
  }

  lemma FewerStep(cfg: Config, calls: Calls, n: nat, k: nat, j: nat)
    requires j < Capacity(cfg) && Capacity(cfg) + 1 < n && (cfg.maxLifetime > 0 || calls.cancel)
    ensures Leads(Next(cfg, calls), Fewer(cfg, n, Left(cfg, k + 1), j, Hour(cfg, j)),
                  Fewer(cfg, n, Left(cfg, k), j + 1, Hour(cfg, j + 1)))
  {
    if cfg.maxLifetime > 0 {
      RetiresOne(cfg, calls, n, j, Hour(cfg, j));
    } else {
      FindsOneGone(cfg, calls, n, k, j);
    }
  }

  /** The whole `put` of that step, as PutDoes and PutWillStrand see it, at the cap. */
  lemma FewerShared(cfg: Config, n: nat, j: nat)
    requires Capacity(cfg) < n && j < Capacity(cfg) && cfg.maxCap == Capacity(cfg) - j
    ensures var s, s' := Before(cfg, n, j), After(cfg, n, j);
            && NoStranded(cfg, SharedOf(s)) && !NoStranded(cfg, SharedOf(s'))
            && AllAtRest(s.pcs) && AllAtRest(s'.pcs) && !s.closed && !s'.closed
            && PutWillStrand(cfg, Conn(j, 0), Hour(cfg, j + 1), SharedOf(s))
  {
    var s, s' := Before(cfg, n, j), After(cfg, n, j);
    assert s.reqs[0].Waiting? && s'.reqs[0].Waiting?;
  }

  function Before(cfg: Config, n: nat, j: nat): State
    requires j < Capacity(cfg)
  {
    Fewer(cfg, n, Left(cfg, 1), j, Hour(cfg, j))
  }

  function After(cfg: Config, n: nat, j: nat): State
    requires j < Capacity(cfg)
  {
    Fewer(cfg, n, Left(cfg, 0), j + 1, Hour(cfg, j + 1))
  }

  lemma FewerPut(cfg: Config, n: nat, j: nat)
    requires Capacity(cfg) < n && j < Capacity(cfg)
    ensures var t := Hour(cfg, j + 1);
            PutDoes(cfg, if cfg.maxLifetime > 0 then Retired(true) else Undelivered(true), Conn(j, 0), t, t,
                    SharedOf(Before(cfg, n, j)), SharedOf(After(cfg, n, j)))
  {
    var s, s' := Before(cfg, n, j), After(cfg, n, j);
    assert s'.closedLog == s.closedLog + [j];
    if cfg.maxLifetime == 0 {
      assert s'.reqs == s.reqs[..|s.reqs| - 1];
    }
  }

  /** The guard of PutStrands is met in reachable states: a whole `put` strands the waiters of a pool that
      served all it could. */
  lemma StrandsUnderCap(cfg: Config, calls: Calls) returns (s: State, s': State, r: PutResult, c: Conn, t: nat)
    requires 1 <= Capacity(cfg) && 1 <= cfg.maxCap && (cfg.maxLifetime > 0 || calls.cancel)
    ensures ReachableBy(cfg, calls, s) && AllAtRest(s.pcs) && !s.closed && NoStranded(cfg, SharedOf(s))
    ensures Leads(Next(cfg, calls), s, s') && ReachableBy(cfg, calls, s') && Stranded(cfg, s')
    ensures PutDoes(cfg, r, c, t, t, SharedOf(s), SharedOf(s')) && PutWillStrand(cfg, c, t, SharedOf(s))
  {
    var n, j := Capacity(cfg) + 2, Capacity(cfg) - cfg.maxCap;
    s, s' := Before(cfg, n, j), After(cfg, n, j);
    FewerIsReachable(cfg, calls, n, 1, j);
    FewerStep(cfg, calls, n, 0, j);
    ReachableFurther(cfg, calls, s, s');
    r := if cfg.maxLifetime > 0 then Retired(true) else Undelivered(true);
    c, t := Conn(j, 0), Hour(cfg, j + 1);
    FewerShared(cfg, n, j);
    FewerPut(cfg, n, j);
  }

  // ---------------------------------------------------------------- in a closed pool

  /** All calls are over or parked, and somebody is parked in a closed pool, where `put` serves nobody. */
  ghost predicate Forgotten(s: State) {
    AllAtRest(s.pcs) && s.closed && HasWaiter(s.reqs)
  }

  /** The first k callers have entered `get`. */
  function Entered(cfg: Config, n: nat, k: nat): State {
    Took(cfg, n, 0).(pcs := seq(n, i requires 0 <= i => if i < k then GetLockIdle else Ready))
  }

  lemma OneMoreEnters(cfg: Config, calls: Calls, n: nat, k: nat)
    requires k < n
    ensures Leads(Next(cfg, calls), Entered(cfg, n, k), Entered(cfg, n, k + 1))
  {
    var s := Entered(cfg, n, k);
    Enters(cfg, calls, s, k);
    assert s.pcs[k := GetLockIdle] == Entered(cfg, n, k + 1).pcs;
  }

  lemma EnteredNone(cfg: Config, calls: Calls, n: nat)
    ensures ReachableBy(cfg, calls, Entered(cfg, n, 0))
  {
    TookIsReachable(cfg, calls, n, 0);
    assert Entered(cfg, n, 0).pcs == Holders(n, 0);
  }

  lemma {:induction false} EnteredIsReachable(cfg: Config, calls: Calls, n: nat, k: nat)
    requires k <= n
    ensures ReachableBy(cfg, calls, Entered(cfg, n, k))
  {
    if k == 0 {
      EnteredNone(cfg, calls, n);
    } else {
      EnteredIsReachable(cfg, calls, n, k - 1);
      OneMoreEnters(cfg, calls, n, k - 1);
      ReachableFurther(cfg, calls, Entered(cfg, n, k - 1), Entered(cfg, n, k));
    }
  }

  /** The first j of them have made a connection. */
  function Refillers(i: nat, n: nat, k: nat, j: nat): seq<Pc> {
    seq(n, p requires 0 <= p =>
      if p < j then Holding(Conn(i + p, 0), 0) else if p < k then GetLockIdle else Ready)
  }

  lemma NextRefiller(i: nat, n: nat, k: nat, j: nat)
    requires j < k <= n
    ensures Refillers(i, n, k, j)[j] == GetLockIdle
    ensures Refillers(i, n, k, j)[j := Holding(Conn(i + j, 0), 0)] == Refillers(i, n, k, j + 1)
    ensures Zeros(i + j) + [0] == Zeros(i + j + 1)
  {
  }

  /** They have, after `release` has run. */
  function Refilled(cfg: Config, n: nat, k: nat, j: nat): State {
    var i := cfg.initialCap;
    State([], j, true, [], Unlocked(), Refillers(i, n, k, j), 0, Zeros(i + j), Ids(IdleFrom(0, i)), [], 0)
  }

  lemma MadeIsRefilled(cfg: Config, n: nat, k: nat, j: nat)
    requires j < k < n
    ensures Made(Refilled(cfg, n, k, j), j, 0) == Refilled(cfg, n, k, j + 1)
  {
    NextRefiller(cfg.initialCap, n, k, j);
  }

  lemma RefillsOne(cfg: Config, calls: Calls, n: nat, k: nat, j: nat)
    requires j < k < n && j < cfg.maxCap
    ensures Leads(Next(cfg, calls), Refilled(cfg, n, k, j), Refilled(cfg, n, k, j + 1))
  {
    NextRefiller(cfg.initialCap, n, k, j);
    MadeIsRefilled(cfg, n, k, j);
    MakesOne(cfg, calls, Refilled(cfg, n, k, j), j);
  }

  lemma RefillStarts(cfg: Config, calls: Calls, n: nat, k: nat)
    requires calls.release && k < n
    ensures ReachableBy(cfg, calls, Refilled(cfg, n, k, 0))
  {
    var s := Entered(cfg, n, k);
    EnteredIsReachable(cfg, calls, n, k);
    Releases(cfg, calls, s, k);
    assert s.pcs == Refillers(cfg.initialCap, n, k, 0);
    assert Released(s) == Refilled(cfg, n, k, 0);
  }

  lemma RefillsOn(cfg: Config, calls: Calls, n: nat, k: nat, j: nat)
    requires j < k < n && j < cfg.maxCap && ReachableBy(cfg, calls, Refilled(cfg, n, k, j))
    ensures ReachableBy(cfg, calls, Refilled(cfg, n, k, j + 1))
  {
    var s, s' := Refilled(cfg, n, k, j), Refilled(cfg, n, k, j + 1);
    RefillsOne(cfg, calls, n, k, j);
    ReachableFurther(cfg, calls, s, s');
  }

  lemma {:induction false} RefilledIsReachable(cfg: Config, calls: Calls, n: nat, k: nat, j: nat)
    requires calls.release && j < k < n && j <= cfg.maxCap
    ensures ReachableBy(cfg, calls, Refilled(cfg, n, k, j))
  {
    if j == 0 {
      RefillStarts(cfg, calls, n, k);
    } else {
      RefilledIsReachable(cfg, calls, n, k, j - 1);
      RefillsOn(cfg, calls, n, k, j - 1);
    }
  }

  /** The last `get` parks in the closed pool. */
  lemma ParksLast(cfg: Config, calls: Calls, s: State, p: nat) returns (s': State)
    requires ReachableBy(cfg, calls, s) && s.closed && s.idle == [] && s.reqs == [] && s.locks == Unlocked()
    requires s.count >= cfg.maxCap && p < |s.pcs| && s.pcs[p].GetLockIdle?
    requires forall q :: 0 <= q < |s.pcs| && q != p ==> AtRest(s.pcs[q])
    ensures ReachableBy(cfg, calls, s') && Forgotten(s')
  {
    FindsFull(cfg, calls, s, p);
    s' := Here(s, p, Parked).(reqs := s.reqs + [Waiting(p)]);
    ReachableFurther(cfg, calls, s, s');
    assert s'.reqs[0].Waiting?;
  }

  lemma RefillersRest(i: nat, n: nat, j: nat)
    requires j + 1 < n
    ensures var pcs := Refillers(i, n, j + 1, j);
            |pcs| == n && pcs[j].GetLockIdle? && forall q :: 0 <= q < n && q != j ==> AtRest(pcs[q])
  {
  }

  /** Calls of `get` that were past their check fill a released pool up again, and the next one parks. */
  lemma Forgets(cfg: Config, calls: Calls) returns (s: State)
    requires calls.release
    ensures ReachableBy(cfg, calls, s) && Forgotten(s)
  {
    var p := cfg.maxCap;
    RefilledIsReachable(cfg, calls, p + 2, p + 1, p);
    RefillersRest(cfg.initialCap, p + 2, p);
    s := ParksLast(cfg, calls, Refilled(cfg, p + 2, p + 1, p), p);
  }
}
