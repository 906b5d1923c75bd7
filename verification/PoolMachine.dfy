/** The connection pool as a step system.

    Any number of callers run `get`, `put`, `clean_idle_conns` and `release` concurrently over
    four mutexes.  A caller's program counter names the point at which it awaits a lock or stands
    between two awaits while holding one; one step runs the code from there to the next such point.
    Loops take one step per iteration.  What the code cannot decide (the closer, the pinger, the
    factory, the clock, which call a caller makes) arrives with the step. */
module PoolMachine {
  import opened Tally
  import opened Transitions

  type ConnId = nat

  /** A pooled connection with its creation time. */
  datatype Conn = Conn(id: ConnId, created: nat)

  datatype IdleConn = IdleConn(conn: Conn, since: nat)

  /** A duration of 0 switches the corresponding timeout off. */
  datatype Config = Config(initialCap: nat, maxCap: nat, maxIdle: nat,
                           idleTimeout: nat, maxLifetime: nat, hasPinger: bool)

  /** A mutex: free, or held by a caller across an await. */
  datatype Lock = Free | By(holder: nat)

  /** An entry of the waiter stack; Gone is an entry whose receiver was dropped. */
  datatype Request = Waiting(waiter: nat) | Gone

  datatype Pc =
    // between calls
    | Ready
    | Holding(conn: Conn, checkedAt: nat)
    // get
    | GetEnter
    | GetLockIdle
    | GetScan                                   // holds idle
    | GetOwes                                   // holds idle, awaits count; a discarded connection is still counted
    | GetLockCount
    | GetLockReqs                               // holds count, awaits reqs
    | Parked                                    // awaits its oneshot
    | Served(conn: Conn, checkedAt: nat)        // the oneshot carries a connection
    | Refused                                   // the oneshot carries the Closed error
    // put
    | PutEnter(conn: Conn)
    | PutOwes                                   // awaits count; the connection was discarded
    | PutLockReqs(conn: Conn, checkedAt: nat)
    | PutLockIdle(conn: Conn)                   // holds reqs, awaits idle
    | PutOverflow                               // holds reqs and idle, awaits count
    // clean_idle_conns
    | CleanEnter
    | CleanLockIdle
    | CleanLockCount                            // holds idle, awaits count
    | CleanLoop(next: nat, removed: nat, orig: seq<IdleConn>, began: nat)  // holds idle and count
    // release; closed is held throughout
    | RelEnter
    | RelLockIdle
    | RelClose                                  // holds idle
    | RelLockReqs                               // holds idle, awaits reqs
    | RelDrain                                  // holds idle and reqs
    | RelLockCount                              // holds idle and reqs, awaits count

  /** The four mutexes of the pool. */
  datatype Locks = Locks(idle: Lock, count: Lock, closed: Lock, reqs: Lock)

  /** `idle`, `count`, `closed` and `reqs` are the fields of the pool.  `births`, `closedLog`, `lost`
      and `drift` record history: the creation time of each connection the factory made, the
      connections the closer closed (in order), those dropped unclosed, and how far the counter
      has been left above the connections it should count. */
  datatype State = State(
    idle: seq<IdleConn>, count: int, closed: bool, reqs: seq<Request>,
    locks: Locks, pcs: seq<Pc>, now: nat,
    births: seq<nat>, closedLog: seq<ConnId>, lost: seq<ConnId>, drift: nat)

  /** What the environment answers during one step: two successive clock readings and the outcomes
      of the closer, the pinger and the factory. */
  datatype Env = Env(t: nat, t2: nat, closerOk: bool, pingOk: bool, factoryOk: bool)

  datatype Action =
    | CallGet
    | CallPut
    | CallClean
    | CallRelease
    | DropReceiver       // the caller's future is dropped while it awaits its oneshot
    | Run(env: Env)

  datatype Move = Move(p: nat, action: Action)

  function Elapsed(since: nat, t: nat): nat {
    if since <= t then t - since else 0
  }

  predicate IdleExpired(cfg: Config, x: IdleConn, t: nat) {
    cfg.idleTimeout > 0 && Elapsed(x.since, t) > cfg.idleTimeout
  }

  predicate LifeExpired(cfg: Config, c: Conn, t: nat) {
    cfg.maxLifetime > 0 && Elapsed(c.created, t) > cfg.maxLifetime
  }

  /** Why `get` throws away the idle connection it popped. */
  predicate Evicted(cfg: Config, x: IdleConn, env: Env) {
    IdleExpired(cfg, x, env.t) || LifeExpired(cfg, x.conn, env.t2) || (cfg.hasPinger && !env.pingOk)
  }

  /** `get` may throw away a connection it popped. */
  predicate Evicts(cfg: Config) {
    cfg.idleTimeout > 0 || cfg.maxLifetime > 0 || cfg.hasPinger
  }

  /** A call is in progress and is not parked on its oneshot. */
  predicate Active(pc: Pc) {
    !pc.Ready? && !pc.Holding? && !pc.Parked?
  }

  /** The lock that the section at p's program point awaits, if any, is free. */
  predicate CanRun(s: State, p: nat)
    requires p < |s.pcs|
  {
    match s.pcs[p]
    case GetEnter | PutEnter(_) | CleanEnter | RelEnter => s.locks.closed.Free?
    case GetLockIdle | PutLockIdle(_) | CleanLockIdle | RelLockIdle => s.locks.idle.Free?
    case GetOwes | GetLockCount | PutOwes | PutOverflow | CleanLockCount | RelLockCount => s.locks.count.Free?
    case GetLockReqs | PutLockReqs(_, _) | RelLockReqs => s.locks.reqs.Free?
    case GetScan | Served(_, _) | Refused | CleanLoop(_, _, _, _) | RelClose | RelDrain => true
    case Ready | Holding(_, _) | Parked => false
  }

  /** The indices that p's next section uses are in range.  An invariant, see PoolInvariants. */
  predicate IndicesOk(s: State, p: nat)
    requires p < |s.pcs|
  {
    && (s.pcs[p].CleanLoop? ==> s.pcs[p].next <= |s.idle|)
    && (s.pcs[p].PutLockReqs? && s.reqs != [] && s.reqs[|s.reqs| - 1].Waiting? ==>
          s.reqs[|s.reqs| - 1].waiter < |s.pcs|)
    && (s.pcs[p].RelDrain? && s.reqs != [] && s.reqs[0].Waiting? ==> s.reqs[0].waiter < |s.pcs|)
  }

  predicate Enabled(s: State, m: Move) {
    m.p < |s.pcs| &&
    match m.action
    case CallGet | CallClean | CallRelease => s.pcs[m.p].Ready?
    case CallPut => s.pcs[m.p].Holding?
    case DropReceiver => s.pcs[m.p].Parked? || s.pcs[m.p].Served?
    case Run(env) => CanRun(s, m.p) && IndicesOk(s, m.p) && s.now <= env.t <= env.t2
  }

  // What one step does to each part of the state.

  datatype IdleOp = KeepIdle | PopFront | PushBack(x: IdleConn) | RemoveAt(i: nat)

  datatype ReqOp = KeepReqs | PushReq(waiter: nat) | PopReq | ShiftReq | RetireReq(waiter: nat)

  datatype LogOp = NoLog | Birth(at: nat) | Close(id: ConnId) | Lose(id: ConnId)

  datatype Wake = NoWake | WakeUp(waiter: nat, pc: Pc)

  datatype Effect = Effect(
    pc: Pc, wake: Wake, idle: IdleOp, count: int, closed: bool, reqs: ReqOp,
    locks: Locks, log: LogOp, drift: nat)

  /** Only the program counter moves. */
  function Go(s: State, pc: Pc): Effect {
    Effect(pc, NoWake, KeepIdle, s.count, s.closed, KeepReqs, s.locks, NoLog, s.drift)
  }

  /** What becomes of a connection the closer is called on. */
  function Closing(c: Conn, closerOk: bool): LogOp {
    if closerOk then Close(c.id) else Lose(c.id)
  }

  predicate InGet(pc: Pc) {
    pc.GetEnter? || pc.GetLockIdle? || pc.GetScan? || pc.GetOwes? || pc.GetLockCount? || pc.GetLockReqs? ||
    pc.Served? || pc.Refused?
  }

  predicate InPut(pc: Pc) {
    pc.PutEnter? || pc.PutOwes? || pc.PutLockReqs? || pc.PutLockIdle? || pc.PutOverflow?
  }

  predicate InClean(pc: Pc) {
    pc.CleanEnter? || pc.CleanLockIdle? || pc.CleanLockCount? || pc.CleanLoop?
  }

  predicate InRelease(pc: Pc) {
    pc.RelEnter? || pc.RelLockIdle? || pc.RelClose? || pc.RelLockReqs? || pc.RelDrain? || pc.RelLockCount?
  }

  /** `get`. */
  function GetSection(cfg: Config, s: State, p: nat, env: Env): Effect
    requires p < |s.pcs| && InGet(s.pcs[p])
  {
    match s.pcs[p]
    case GetEnter => Go(s, if s.closed then Ready else GetLockIdle)
    case GetLockIdle => Go(s, GetScan).(locks := s.locks.(idle := By(p)))
    case GetScan =>
      if s.idle == [] then
        Go(s, GetLockCount).(locks := s.locks.(idle := Free))
      else if Evicted(cfg, s.idle[0], env) then
        Go(s, GetOwes).(idle := PopFront, log := Closing(s.idle[0].conn, env.closerOk))
      else
        Go(s, Holding(s.idle[0].conn, env.t2)).(idle := PopFront, locks := s.locks.(idle := Free))
    case GetOwes => Go(s, GetScan).(count := s.count - 1)
    case GetLockCount =>
      if s.count >= cfg.maxCap then
        Go(s, GetLockReqs).(locks := s.locks.(count := By(p)))
      else if env.factoryOk then
        Go(s, Holding(Conn(|s.births|, env.t2), env.t2)).(count := s.count + 1, log := Birth(env.t2))
      else
        Go(s, Ready)
    case GetLockReqs => Go(s, Parked).(reqs := PushReq(p), locks := s.locks.(count := Free))
    case Served(c, t) => Go(s, Holding(c, t))
    case Refused => Go(s, Ready)
  }

  /** `put`. */
  function PutSection(cfg: Config, s: State, p: nat, env: Env): Effect
    requires p < |s.pcs| && InPut(s.pcs[p])
  {
    match s.pcs[p]
    case PutEnter(c) =>
      if s.closed then
        Go(s, Ready).(log := Lose(c.id))
      else if LifeExpired(cfg, c, env.t2) then
        Go(s, PutOwes).(log := Closing(c, env.closerOk))
      else
        Go(s, PutLockReqs(c, env.t2))
    case PutOwes => Go(s, Ready).(count := s.count - 1)
    case PutLockReqs(c, t) =>
      if s.reqs == [] then
        Go(s, PutLockIdle(c)).(locks := s.locks.(reqs := By(p)))
      else if s.reqs[|s.reqs| - 1].Waiting? then
        Go(s, Ready).(reqs := PopReq, wake := WakeUp(s.reqs[|s.reqs| - 1].waiter, Served(c, t)))
      else
        Go(s, PutOwes).(reqs := PopReq, log := Closing(c, env.closerOk))
    case PutLockIdle(c) =>
      if |s.idle| < cfg.maxIdle then
        Go(s, Ready).(idle := PushBack(IdleConn(c, env.t2)), locks := s.locks.(reqs := Free))
      else if env.closerOk then
        Go(s, PutOverflow).(log := Close(c.id), locks := s.locks.(idle := By(p)))
      else
        Go(s, Ready).(log := Lose(c.id), drift := s.drift + 1, locks := s.locks.(reqs := Free))
    case PutOverflow =>
      Go(s, Ready).(count := s.count - 1, locks := s.locks.(idle := Free, reqs := Free))
  }

  /** `clean_idle_conns`. */
  function CleanSection(cfg: Config, s: State, p: nat, env: Env): Effect
    requires p < |s.pcs| && InClean(s.pcs[p]) && IndicesOk(s, p)
  {
    match s.pcs[p]
    case CleanEnter => Go(s, if s.closed then Ready else CleanLockIdle)
    case CleanLockIdle => Go(s, CleanLockCount).(locks := s.locks.(idle := By(p)))
    case CleanLockCount =>
      Go(s, CleanLoop(|s.idle|, 0, s.idle, env.t2)).(locks := s.locks.(count := By(p)))
    case CleanLoop(next, removed, orig, began) =>
      if next == 0 then
        Go(s, Ready).(count := s.count - removed, locks := s.locks.(idle := Free, count := Free))
      else if !IdleExpired(cfg, s.idle[next - 1], env.t2) then
        Go(s, CleanLoop(next - 1, removed, orig, began))
      else if env.closerOk then
        Go(s, CleanLoop(next - 1, removed + 1, orig, began)).(
          idle := RemoveAt(next - 1), log := Close(s.idle[next - 1].conn.id))
      else
        Go(s, Ready).(drift := s.drift + removed, locks := s.locks.(idle := Free, count := Free))
  }

  /** `release`. */
  function ReleaseSection(s: State, p: nat, env: Env): Effect
    requires p < |s.pcs| && InRelease(s.pcs[p])
  {
    match s.pcs[p]
    case RelEnter => Go(s, RelLockIdle).(closed := true, locks := s.locks.(closed := By(p)))
    case RelLockIdle => Go(s, RelClose).(locks := s.locks.(idle := By(p)))
    case RelClose =>
      if s.idle == [] then
        Go(s, RelLockReqs)
      else if env.closerOk then
        Go(s, RelClose).(idle := PopFront, log := Close(s.idle[0].conn.id))
      else
        Go(s, Ready).(idle := PopFront, log := Lose(s.idle[0].conn.id), locks := s.locks.(idle := Free, closed := Free))
    case RelLockReqs => Go(s, RelDrain).(locks := s.locks.(reqs := By(p)))
    case RelDrain =>
      if s.reqs == [] then
        Go(s, RelLockCount)
      else if s.reqs[0].Waiting? then
        Go(s, RelDrain).(reqs := ShiftReq, wake := WakeUp(s.reqs[0].waiter, Refused))
      else
        Go(s, RelDrain).(reqs := ShiftReq)
    case RelLockCount =>
      Go(s, Ready).(count := 0, locks := s.locks.(idle := Free, reqs := Free, closed := Free))
  }

  /** What a move does: a caller starts a call, its future is dropped, or its call runs the code
      between two awaits. */
  function EffectOf(cfg: Config, s: State, m: Move): Effect
    requires Enabled(s, m)
  {
    match m.action
    case CallGet => Go(s, GetEnter)
    case CallPut => Go(s, PutEnter(s.pcs[m.p].conn))
    case CallClean => Go(s, CleanEnter)
    case CallRelease => Go(s, RelEnter)
    case DropReceiver =>
      if s.pcs[m.p].Parked? then Go(s, Ready).(reqs := RetireReq(m.p))
      else Go(s, Ready).(log := Lose(s.pcs[m.p].conn.id), drift := s.drift + 1)
    case Run(env) =>
      if InGet(s.pcs[m.p]) then GetSection(cfg, s, m.p, env)
      else if InPut(s.pcs[m.p]) then PutSection(cfg, s, m.p, env)
      else if InClean(s.pcs[m.p]) then CleanSection(cfg, s, m.p, env)
      else ReleaseSection(s, m.p, env)
  }

  // Carrying an effect out.

  function Dequeue(idle: seq<IdleConn>, op: IdleOp): seq<IdleConn> {
    match op
    case KeepIdle => idle
    case PopFront => if idle == [] then idle else idle[1..]
    case PushBack(x) => idle + [x]
    case RemoveAt(i) => if i < |idle| then idle[..i] + idle[i + 1..] else idle
  }

  function Restack(reqs: seq<Request>, op: ReqOp): seq<Request> {
    match op
    case KeepReqs => reqs
    case PushReq(w) => reqs + [Waiting(w)]
    case PopReq => if reqs == [] then reqs else reqs[..|reqs| - 1]
    case ShiftReq => if reqs == [] then reqs else reqs[1..]
    case RetireReq(w) => seq(|reqs|, i requires 0 <= i < |reqs| => if reqs[i] == Waiting(w) then Gone else reqs[i])
  }

  function Awaken(pcs: seq<Pc>, wake: Wake): seq<Pc> {
    if wake.WakeUp? && wake.waiter < |pcs| then pcs[wake.waiter := wake.pc] else pcs
  }

  function Apply(s: State, p: nat, e: Effect, now: nat): State
    requires p < |s.pcs|
  {
    State(
      Dequeue(s.idle, e.idle), e.count, e.closed, Restack(s.reqs, e.reqs), e.locks,
      Awaken(s.pcs, e.wake)[p := e.pc], now,
      if e.log.Birth? then s.births + [e.log.at] else s.births,
      if e.log.Close? then s.closedLog + [e.log.id] else s.closedLog,
      if e.log.Lose? then s.lost + [e.log.id] else s.lost,
      e.drift)
  }

  function Step(cfg: Config, s: State, m: Move): State
    requires Enabled(s, m)
  {
    Apply(s, m.p, EffectOf(cfg, s, m), if m.action.Run? then m.action.env.t2 else s.now)
  }

  /** What `Pool::new` leaves when the factory made all its initial connections. */
  ghost predicate Init(cfg: Config, s: State) {
    && |s.idle| == |s.births| == cfg.initialCap && s.count == cfg.initialCap
    && (forall i :: 0 <= i < |s.idle| ==>
          s.idle[i].conn == Conn(i, s.births[i]) && s.idle[i].since <= s.births[i] <= s.now)
    && (forall i, j :: 0 <= i < j < |s.idle| ==> s.idle[i].since <= s.idle[j].since)
    && !s.closed && s.reqs == [] && s.closedLog == [] && s.lost == [] && s.drift == 0
    && s.locks == Locks(Free, Free, Free, Free)
    && (forall p :: 0 <= p < |s.pcs| ==> s.pcs[p].Ready?)
  }

  /** What the callers do besides `get` and `put`: clean up, release the pool, and drop the future of a
      `get` that awaits its oneshot. */
  datatype Calls = Calls(clean: bool, release: bool, cancel: bool)

  const AllCalls: Calls := Calls(true, true, true)

  predicate Allowed(calls: Calls, m: Move) {
    && (m.action.CallClean? ==> calls.clean)
    && (m.action.CallRelease? ==> calls.release)
    && (m.action.DropReceiver? ==> calls.cancel)
  }

  function Next(cfg: Config, calls: Calls): (State, Move) -> Option<State> {
    (s: State, m: Move) => if Enabled(s, m) && Allowed(calls, m) then Some(Step(cfg, s, m)) else None
  }

  ghost predicate ReachableBy(cfg: Config, calls: Calls, s: State) {
    exists s0 :: Init(cfg, s0) && Leads(Next(cfg, calls), s0, s)
  }

  ghost predicate Reachable(cfg: Config, s: State) {
    ReachableBy(cfg, AllCalls, s)
  }
}
