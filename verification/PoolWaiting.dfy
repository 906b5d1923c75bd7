/** Waiters, when operations do not overlap: in a pool without a lifetime limit whose closers succeed and
    whose waiters stay, nobody waits in vain, and every `put` shortens the queue. */
module PoolWaiting {
  import opened Tally
  import opened Transitions
  import opened PoolMachine
  import opened PoolInvariants
  import opened PoolOperations

  /** The pool between two operations, and the number of connections with callers. */
  datatype Between = Between(pool: Shared, out: nat)

  /** One whole operation, with its result, its time and what it leaves. */
  datatype Operation =
    | DoGet(got: GetResult, p: nat, id: ConnId, began: nat, now: nat, after: Shared)
    | DoPut(put: PutResult, c: Conn, t: nat, now: nat, after: Shared)
    | DoClean(began: nat, now: nat, after: Shared)

  /** The pool is open, so no operation is refused; a connection that is handed over stays with callers. */
  ghost function Next(cfg: Config): (Between, Operation) -> Option<Between> {
    (b: Between, op: Operation) =>
      match op
      case DoGet(r, p, id, began, now, after) =>
        if GetDoes(cfg, r, p, id, began, now, b.pool, after) then
          Some(Between(after, b.out + if r.Got? then 1 else 0))
        else None
      case DoPut(r, c, t, now, after) =>
        if b.out > 0 && PutDoes(cfg, r, c, t, now, b.pool, after) && !r.Ignored? && !r.CloseFailed? then
          Some(Between(after, if r.Handed? then b.out else b.out - 1))
        else None
      case DoClean(began, now, after) =>
        if CleanDoes(cfg, true, began, now, b.pool, after) then Some(Between(after, b.out)) else None
  }

  ghost predicate Served(cfg: Config, b: Between) {
    NoneGone(b.pool.reqs) && NoStranded(cfg, b.pool) && b.pool.count == |b.pool.idle| + b.out
  }

  lemma ServedStep(cfg: Config, b: Between, op: Operation)
    requires cfg.maxLifetime == 0 && Served(cfg, b) && Next(cfg)(b, op).Some?
    ensures Served(cfg, Next(cfg)(b, op).value)
  {
    match op
    case DoGet(r, p, id, began, now, after) => GetStrandsNobody(cfg, r, p, id, began, now, b.pool, after);
    case DoPut(r, c, t, now, after) => PutStrands(cfg, r, c, t, now, b.pool, after);
    case DoClean(began, now, after) => CleanStrandsNobody(cfg, true, began, now, b.pool, after);
  }

  /** Whatever was called before: if anyone waits, the deque is empty, the cap is reached, and every
      connection counted is with a caller. */
  lemma NobodyWaitsInVain(cfg: Config, start: Between, b: Between)
    requires cfg.maxLifetime == 0 && start.pool.reqs == [] && start.pool.count == |start.pool.idle| + start.out
    requires Leads(Next(cfg), start, b)
    ensures b.pool.reqs != [] ==> b.pool.idle == [] && b.pool.count >= cfg.maxCap && b.out == b.pool.count
    ensures b.pool.count == |b.pool.idle| + b.out
  {
    ServedReachable(cfg, start, b);
    assert b.pool.reqs != [] ==> b.pool.reqs[0].Waiting?;
  }

  lemma ServedReachable(cfg: Config, start: Between, b: Between)
    requires cfg.maxLifetime == 0 && start.pool.reqs == [] && start.pool.count == |start.pool.idle| + start.out
    requires Leads(Next(cfg), start, b)
    ensures Served(cfg, b)
  {
    forall t, m | Served(cfg, t) && Next(cfg)(t, m).Some?
      ensures Served(cfg, Next(cfg)(t, m).value)
    {
      ServedStep(cfg, t, m);
    }
    InvariantHolds(Next(cfg), (t: Between) => Served(cfg, t), start, b);
  }

  /** And the next `put` serves the newest waiter, and no other: the queue is one shorter and nothing else
      changes. */
  lemma PutServesNewest(cfg: Config, start: Between, b: Between, r: PutResult, c: Conn, t: nat, now: nat,
                        after: Shared)
    requires cfg.maxLifetime == 0 && start.pool.reqs == [] && start.pool.count == |start.pool.idle| + start.out
    requires Leads(Next(cfg), start, b) && b.pool.reqs != []
    requires PutDoes(cfg, r, c, t, now, b.pool, after) && !r.Ignored?
    ensures var last := |b.pool.reqs| - 1;
            && b.pool.reqs[last].Waiting? && r == Handed(b.pool.reqs[last].waiter)
            && after == b.pool.(reqs := b.pool.reqs[..last])
  {
    ServedReachable(cfg, start, b);
  }
}
