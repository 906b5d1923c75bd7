/** The pool's promises, for every reachable state and every step. */
module PoolTheorems {
  import opened Tally
  import opened Transitions
  import opened PoolMachine
  import opened PoolEffects
  import opened PoolInvariants

  // ---------------------------------------------------------------- the counter

  /** Connections with callers, between `get` and `put`. */
  function Held(s: State): nat {
    Sum(s.pcs, HeldWeight)
  }

  /** Connections inside a running `get`, `put` or `clean_idle_conns`. */
  function InHand(s: State): nat {
    Sum(s.pcs, InHandWeight)
  }

  /** Until `release` is called the counter is the number of idle connections, of connections held,
      and of those in hand, plus the drift. */
  lemma Conservation(cfg: Config, s: State)
    requires Reachable(cfg, s) && !s.closed
    ensures s.count == |s.idle| + Held(s) + InHand(s) + s.drift
  {
    InvReachable(cfg, s);
    SumSplit(s.pcs, Weight, HeldWeight, InHandWeight);
  }

  /** No section that ends before `release` is called takes the counter below zero. */
  lemma NoUnderflow(cfg: Config, s: State, m: Move)
    requires Reachable(cfg, s) && Enabled(s, m) && !EffectOf(cfg, s, m).closed
    ensures EffectOf(cfg, s, m).count >= 0
  {
    InvReachable(cfg, s);
    HoldsLocks(s, m.p);
    MoveLawful(cfg, s, m);
    CountStep(cfg, s, m.p, EffectOf(cfg, s, m), Clock(s, m));
  }

  /** The three ways a connection leaves the pool without leaving the counter: the closer fails on
      an overflowing `put`, the closer fails after the clean-up loop removed others, or a caller
      drops a oneshot that already carries a connection. */
  predicate Drifts(cfg: Config, s: State, m: Move)
    requires Enabled(s, m)
  {
    match m.action
    case DropReceiver => s.pcs[m.p].Served?
    case Run(env) =>
      || (s.pcs[m.p].PutLockIdle? && |s.idle| >= cfg.maxIdle && !env.closerOk)
      || (s.pcs[m.p].CleanLoop? && s.pcs[m.p].next > 0 && s.pcs[m.p].removed > 0 && !env.closerOk &&
          IdleExpired(cfg, s.idle[s.pcs[m.p].next - 1], env.t2))
    case _ => false
  }

  lemma DriftOnlyGrows(cfg: Config, s: State, m: Move)
    requires Enabled(s, m)
    ensures EffectOf(cfg, s, m).drift >= s.drift
    ensures EffectOf(cfg, s, m).drift > s.drift <==> Drifts(cfg, s, m)
  {
  }

  /** The cap. */
  lemma Capped(cfg: Config, s: State)
    requires Reachable(cfg, s)
    ensures s.count <= Max(cfg.initialCap, cfg.maxCap)
    ensures |s.idle| <= Max(cfg.initialCap, cfg.maxIdle)
    ensures !s.closed ==> |s.idle| + Held(s) + InHand(s) <= Max(cfg.initialCap, cfg.maxCap)
  {
    InvReachable(cfg, s);
    if !s.closed {
      Conservation(cfg, s);
    }
  }

  // ---------------------------------------------------------------- ownership

  /** Every connection the factory made is in exactly one place, once, and nothing else is anywhere. */
  lemma ExactlyOnePlace(cfg: Config, s: State, id: ConnId)
    requires Reachable(cfg, s)
    ensures Copies(s, id) == if id < |s.births| then 1 else 0
  {
    InvReachable(cfg, s);
  }

  /** In particular no two callers, and no caller and the deque, ever have the same connection. */
  lemma NeverShared(cfg: Config, s: State, p: nat, q: nat)
    requires Reachable(cfg, s) && p < |s.pcs| && q < |s.pcs| && HasConn(s.pcs[p])
    ensures p != q && HasConn(s.pcs[q]) ==> s.pcs[p].conn.id != s.pcs[q].conn.id
    ensures forall i :: 0 <= i < |s.idle| ==> s.idle[i].conn.id != s.pcs[p].conn.id
  {
    var id := s.pcs[p].conn.id;
    ExactlyOnePlace(cfg, s, id);
    SumAtLeast(s.pcs, CarriesIs(id), p);
    forall i | 0 <= i < |s.idle|
      ensures s.idle[i].conn.id != id
    {
      SumAtLeast(s.idle, IdleIs(id), i);
    }
    if p < q {
      SumAtLeastTwo(s.pcs, CarriesIs(id), p, q);
    } else if q < p {
      SumAtLeastTwo(s.pcs, CarriesIs(id), q, p);
    }
  }

  /** The closer succeeds at most once on each connection. */
  lemma ClosedOnce(cfg: Config, s: State, i: nat, j: nat)
    requires Reachable(cfg, s) && i < j < |s.closedLog|
    ensures s.closedLog[i] != s.closedLog[j]
  {
    ExactlyOnePlace(cfg, s, s.closedLog[i]);
    SumAtLeastTwo(s.closedLog, LoggedIs(s.closedLog[i]), i, j);
  }

  ghost predicate Extends(log: seq<ConnId>, s: State) {
    log <= s.closedLog
  }

  lemma ClosedLogGrows(cfg: Config, s: State, s': State)
    requires Leads(Next(cfg, AllCalls), s, s')
    ensures s.closedLog <= s'.closedLog
  {
    var log := s.closedLog;
    forall t, m | Extends(log, t) && Next(cfg, AllCalls)(t, m).Some?
      ensures Extends(log, Next(cfg, AllCalls)(t, m).value)
    {
    }
    InvariantHolds(Next(cfg, AllCalls), (t: State) => Extends(log, t), s, s');
  }

  /** Once closed, a connection is in nobody's hands and not in the deque, in any later state. */
  lemma ClosedStaysOut(cfg: Config, s: State, s': State, i: nat, p: nat)
    requires Reachable(cfg, s) && Leads(Next(cfg, AllCalls), s, s') && i < |s.closedLog| && p < |s'.pcs|
    ensures HasConn(s'.pcs[p]) ==> s'.pcs[p].conn.id != s.closedLog[i]
    ensures forall k :: 0 <= k < |s'.idle| ==> s'.idle[k].conn.id != s.closedLog[i]
  {
    var id := s.closedLog[i];
    ClosedLogGrows(cfg, s, s');
    assert s'.closedLog[i] == id;
    InvReachable(cfg, s);
    InvLeads(cfg, s, s');
    assert Copies(s', id) <= 1;
    SumAtLeast(s'.closedLog, LoggedIs(id), i);
    SumAtLeast(s'.pcs, CarriesIs(id), p);
    forall k | 0 <= k < |s'.idle|
      ensures s'.idle[k].conn.id != id
    {
      SumAtLeast(s'.idle, IdleIs(id), k);
    }
  }

  // ---------------------------------------------------------------- cleaning

  /** When the clean-up loop has run through, it has dropped a prefix of the deque: everything that
      had expired when it began, nothing that has not expired by its end.  Its last section lowers
      the counter by the length of that prefix and leaves the rest in order. */
  lemma CleanDropsPrefix(cfg: Config, s: State, p: nat, env: Env)
    requires Reachable(cfg, s) && p < |s.pcs| && s.pcs[p].CleanLoop? && s.pcs[p].next == 0
    ensures var CleanLoop(_, k, orig, began) := s.pcs[p];
            var e := CleanSection(cfg, s, p, env);
            && k <= |orig| && s.idle == orig[k..] && e.idle.KeepIdle? && e.count == s.count - k
            && (forall j :: 0 <= j < k ==> IdleExpired(cfg, orig[j], s.now))
            && (forall j :: k <= j < |orig| ==> !IdleExpired(cfg, orig[j], began))
  {
    InvReachable(cfg, s);
    var CleanLoop(_, k, orig, began) := s.pcs[p];
    assert CleanCut(cfg, s, 0, k, orig, began);
  }

  /** The deque is ordered by return time, so `get` takes the connection idle for longest. */
  lemma IdleOrdered(cfg: Config, s: State, i: nat, j: nat)
    requires Reachable(cfg, s) && i < j < |s.idle|
    ensures s.idle[i].since <= s.idle[j].since <= s.now
  {
    InvReachable(cfg, s);
  }

  // ---------------------------------------------------------------- lifetime

  /** With a lifetime limit, what `get` returned was within the limit when it was last checked on
      its way out, whether it came from the deque, from another caller's `put` or new; and it has
      the creation time of its factory call. */
  lemma HandedOutFresh(cfg: Config, s: State, p: nat)
    requires Reachable(cfg, s) && p < |s.pcs| && s.pcs[p].Holding?
    ensures var Holding(c, t) := s.pcs[p];
            && t <= s.now && (cfg.maxLifetime > 0 ==> Elapsed(c.created, t) <= cfg.maxLifetime)
            && c.id < |s.births| && c.created == s.births[c.id]
  {
    InvReachable(cfg, s);
  }

  ghost predicate BirthsExtend(births: seq<nat>, s: State) {
    births <= s.births
  }

  /** The creation time survives any number of `get` and `put`. */
  lemma CreatedSurvives(cfg: Config, s: State, p: nat, s': State, q: nat)
    requires Reachable(cfg, s) && Leads(Next(cfg, AllCalls), s, s')
    requires p < |s.pcs| && HasConn(s.pcs[p]) && q < |s'.pcs| && HasConn(s'.pcs[q])
    requires s.pcs[p].conn.id == s'.pcs[q].conn.id
    ensures s.pcs[p].conn == s'.pcs[q].conn
  {
    var births := s.births;
    forall t, m | BirthsExtend(births, t) && Next(cfg, AllCalls)(t, m).Some?
      ensures BirthsExtend(births, Next(cfg, AllCalls)(t, m).value)
    {
    }
    InvariantHolds(Next(cfg, AllCalls), (t: State) => BirthsExtend(births, t), s, s');
    InvReachable(cfg, s);
    InvLeads(cfg, s, s');
    assert Known(s, s.pcs[p].conn) && Known(s', s'.pcs[q].conn);
  }
}
