/** What every interleaving of the pool's callers preserves. */
module PoolInvariants {
  import opened Tally
  import opened Transitions
  import opened PoolMachine
  import opened PoolEffects

  function Max(a: nat, b: nat): nat {
    if a < b then b else a
  }

  /** The number of connections the pool may have open. */
  function Capacity(cfg: Config): nat {
    Max(cfg.initialCap, cfg.maxCap)
  }

  // ---------------------------------------------------------------- locks

  ghost predicate LockedBy(lock: Lock, pcs: seq<Pc>, holds: Pc -> bool) {
    && (lock.By? ==> lock.holder < |pcs|)
    && (forall p :: 0 <= p < |pcs| ==> (holds(pcs[p]) <==> lock == By(p)))
  }

  /** Each mutex names exactly the caller whose program point lies in its critical section. */
  ghost predicate LockInv(s: State) {
    && LockedBy(s.locks.idle, s.pcs, HoldsIdle)
    && LockedBy(s.locks.count, s.pcs, HoldsCount)
    && LockedBy(s.locks.reqs, s.pcs, HoldsReqs)
    && LockedBy(s.locks.closed, s.pcs, HoldsClosed)
    && (s.locks.closed.By? ==> s.closed)
  }

  lemma LockedByUpdate(lock: Lock, pcs: seq<Pc>, holds: Pc -> bool, p: nat, pc: Pc, lock': Lock)
    requires p < |pcs| && LockedBy(lock, pcs, holds) && LockMoves(lock, lock', p, holds(pcs[p]), holds(pc))
    ensures LockedBy(lock', pcs[p := pc], holds)
  {
  }

  /** Waking a parked caller concerns no lock. */
  lemma LockedByAwaken(lock: Lock, pcs: seq<Pc>, holds: Pc -> bool, wake: Wake)
    requires LockedBy(lock, pcs, holds)
    requires wake.WakeUp? ==> wake.waiter < |pcs| && !holds(pcs[wake.waiter]) && !holds(wake.pc)
    ensures LockedBy(lock, Awaken(pcs, wake), holds)
  {
  }

  lemma LockStep(cfg: Config, s: State, p: nat, e: Effect, now: nat)
    requires p < |s.pcs| && LockInv(s) && WaiterInv(s) && Orderly(cfg, s, p, e, now)
    ensures LockInv(Apply(s, p, e, now))
  {
    WokenIsParked(s, p, e);
    var pcs := Awaken(s.pcs, e.wake);
    LockedByAwaken(s.locks.idle, s.pcs, HoldsIdle, e.wake);
    LockedByAwaken(s.locks.count, s.pcs, HoldsCount, e.wake);
    LockedByAwaken(s.locks.reqs, s.pcs, HoldsReqs, e.wake);
    LockedByAwaken(s.locks.closed, s.pcs, HoldsClosed, e.wake);
    LockedByUpdate(s.locks.idle, pcs, HoldsIdle, p, e.pc, e.locks.idle);
    LockedByUpdate(s.locks.count, pcs, HoldsCount, p, e.pc, e.locks.count);
    LockedByUpdate(s.locks.reqs, pcs, HoldsReqs, p, e.pc, e.locks.reqs);
    LockedByUpdate(s.locks.closed, pcs, HoldsClosed, p, e.pc, e.locks.closed);
  }

  // ---------------------------------------------------------------- all callers at once

  ghost predicate Everyone(pcs: seq<Pc>, holds: Pc -> bool) {
    forall p :: 0 <= p < |pcs| ==> holds(pcs[p])
  }

  lemma EveryoneStep(s: State, p: nat, e: Effect, now: nat, holds: Pc -> bool)
    requires p < |s.pcs| && Everyone(s.pcs, holds) && holds(e.pc) && (e.wake.WakeUp? ==> holds(e.wake.pc))
    ensures Everyone(Apply(s, p, e, now).pcs, holds)
  {
  }

  // ---------------------------------------------------------------- waiters

  /** Every live entry of the waiter stack names a parked caller. */
  ghost predicate WaitersParked(reqs: seq<Request>, pcs: seq<Pc>) {
    forall i :: 0 <= i < |reqs| && reqs[i].Waiting? ==>
      reqs[i].waiter < |pcs| && pcs[reqs[i].waiter].Parked?
  }

  predicate NoneGone(reqs: seq<Request>) {
    forall i :: 0 <= i < |reqs| ==> reqs[i].Waiting?
  }

  ghost predicate Distinct(reqs: seq<Request>) {
    forall i, j :: 0 <= i < j < |reqs| && reqs[i].Waiting? ==> reqs[i] != reqs[j]
  }

  ghost predicate ParkedWait(reqs: seq<Request>, pcs: seq<Pc>) {
    forall p :: 0 <= p < |pcs| && pcs[p].Parked? ==> Waiting(p) in reqs
  }

  /** The waiter stack holds exactly the parked callers, each once. */
  ghost predicate WaiterInv(s: State) {
    WaitersParked(s.reqs, s.pcs) && Distinct(s.reqs) && ParkedWait(s.reqs, s.pcs)
  }

  lemma WokenIsParked(s: State, p: nat, e: Effect)
    requires p < |s.pcs| && WaiterInv(s) && StackMoves(s, p, e)
    ensures e.wake.WakeUp? ==> e.wake.waiter < |s.pcs| && e.wake.waiter != p && s.pcs[e.wake.waiter].Parked?
  {
  }

  lemma InStack(reqs: seq<Request>, op: ReqOp, p: nat)
    requires Waiting(p) in reqs
    requires op.PopReq? ==> reqs[|reqs| - 1] != Waiting(p)
    requires op.ShiftReq? ==> reqs[0] != Waiting(p)
    requires op.RetireReq? ==> op.waiter != p
    ensures Waiting(p) in Restack(reqs, op)
  {
    var i :| 0 <= i < |reqs| && reqs[i] == Waiting(p);
    var reqs' := Restack(reqs, op);
    if op.ShiftReq? {
      assert reqs'[i - 1] == Waiting(p);
    } else {
      assert reqs'[i] == Waiting(p);
    }
  }

  lemma ParkedWaitStep(s: State, p: nat, e: Effect, pcs: seq<Pc>)
    requires p < |s.pcs| && WaiterInv(s) && StackMoves(s, p, e)
    requires pcs == Awaken(s.pcs, e.wake)[p := e.pc]
    ensures ParkedWait(Restack(s.reqs, e.reqs), pcs)
  {
    WokenIsParked(s, p, e);
    forall q | 0 <= q < |pcs| && pcs[q].Parked?
      ensures Waiting(q) in Restack(s.reqs, e.reqs)
    {
      if q == p {
        assert Restack(s.reqs, e.reqs)[|s.reqs|] == Waiting(q);
      } else {
        InStack(s.reqs, e.reqs, q);
      }
    }
  }

  lemma WaitersParkedStep(s: State, p: nat, e: Effect, pcs: seq<Pc>)
    requires p < |s.pcs| && WaiterInv(s) && StackMoves(s, p, e)
    requires pcs == Awaken(s.pcs, e.wake)[p := e.pc]
    ensures WaitersParked(Restack(s.reqs, e.reqs), pcs)
  {
    WokenIsParked(s, p, e);
  }

  lemma WaiterStep(s: State, p: nat, e: Effect, now: nat)
    requires p < |s.pcs| && WaiterInv(s) && StackMoves(s, p, e)
    ensures WaiterInv(Apply(s, p, e, now))
  {
    var pcs := Apply(s, p, e, now).pcs;
    ParkedWaitStep(s, p, e, pcs);
    WaitersParkedStep(s, p, e, pcs);
  }

  // ---------------------------------------------------------------- the idle deque

  ghost predicate Sorted(idle: seq<IdleConn>) {
    forall i, j :: 0 <= i < j < |idle| ==> idle[i].since <= idle[j].since
  }

  /** The deque is ordered by the time of return. */
  ghost predicate IdleInv(s: State) {
    Sorted(s.idle) && forall i :: 0 <= i < |s.idle| ==> s.idle[i].since <= s.now
  }

  lemma IdleStep(cfg: Config, s: State, p: nat, e: Effect, now: nat)
    requires p < |s.pcs| && IdleInv(s) && IdleMoves(cfg, s, p, e, now) && s.now <= now
    ensures IdleInv(Apply(s, p, e, now))
  {
  }

  /** Half-way through the clean-up loop the deque is the snapshot taken at its start with one block
      cut out that begins where the loop stands.  The block and everything before it have expired;
      whatever lies behind the block had not when the loop began. */
  ghost predicate CleanCut(cfg: Config, s: State, next: nat, removed: nat, orig: seq<IdleConn>, began: nat) {
    && next + removed <= |orig|
    && s.idle == orig[..next] + orig[next + removed..]
    && Sorted(orig) && began <= s.now
    && (removed > 0 ==> forall j :: 0 <= j < next + removed ==> IdleExpired(cfg, orig[j], s.now))
    && (forall j :: next + removed <= j < |orig| ==> !IdleExpired(cfg, orig[j], began))
  }

  ghost predicate CleanInv(cfg: Config, s: State) {
    forall p :: 0 <= p < |s.pcs| && s.pcs[p].CleanLoop? ==>
      CleanCut(cfg, s, s.pcs[p].next, s.pcs[p].removed, s.pcs[p].orig, s.pcs[p].began)
  }

  lemma CleanIteration(cfg: Config, s: State, next: nat, removed: nat, orig: seq<IdleConn>,
                       began: nat, s': State, now: nat)
    requires CleanCut(cfg, s, next, removed, orig, began) && 0 < next && s.now <= now == s'.now
    ensures next <= |s.idle| && s.idle[next - 1] == orig[next - 1]
    ensures IdleExpired(cfg, s.idle[next - 1], now) && s'.idle == Dequeue(s.idle, RemoveAt(next - 1)) ==>
              CleanCut(cfg, s', next - 1, removed + 1, orig, began)
    ensures !IdleExpired(cfg, s.idle[next - 1], now) && s'.idle == s.idle ==>
              removed == 0 && CleanCut(cfg, s', next - 1, 0, orig, began)
  {
    var i := next - 1;
    assert s.idle[i] == orig[i];
    if IdleExpired(cfg, s.idle[i], now) {
      assert Dequeue(s.idle, RemoveAt(i)) == orig[..i] + orig[i + (removed + 1)..];
    } else {
      assert removed == 0;
      assert s.idle == orig == orig[..i] + orig[i..];
    }
  }

  /** While another caller runs the clean-up loop the deque stands still. */
  lemma CleanUndisturbed(cfg: Config, s: State, p: nat, e: Effect, now: nat, q: nat)
    requires p < |s.pcs| && q < |s.pcs| && q != p && s.pcs[q].CleanLoop?
    requires LockInv(s) && IdleMoves(cfg, s, p, e, now)
    ensures e.idle.KeepIdle?
  {
    assert HoldsIdle(s.pcs[q]) && s.locks.idle == By(q);
    assert !HoldsIdle(s.pcs[p]);
  }

  lemma CleanOwn(cfg: Config, s: State, p: nat, e: Effect, now: nat, s': State)
    requires p < |s.pcs| && IdleInv(s) && CleanInv(cfg, s) && s.now <= now == s'.now
    requires CleanMoves(cfg, s, p, e, now) && e.pc.CleanLoop? && s'.idle == Dequeue(s.idle, e.idle)
    ensures CleanCut(cfg, s', e.pc.next, e.pc.removed, e.pc.orig, e.pc.began)
  {
    if s.pcs[p].CleanLoop? {
      CleanIteration(cfg, s, s.pcs[p].next, s.pcs[p].removed, s.pcs[p].orig, s.pcs[p].began, s', now);
    } else {
      assert s'.idle == s.idle[..|s.idle|] + s.idle[|s.idle|..];
    }
  }

  lemma CleanStep(cfg: Config, s: State, p: nat, e: Effect, now: nat)
    requires p < |s.pcs| && LockInv(s) && WaiterInv(s) && IdleInv(s) && CleanInv(cfg, s)
    requires Orderly(cfg, s, p, e, now) && s.now <= now
    ensures CleanInv(cfg, Apply(s, p, e, now))
  {
    var s' := Apply(s, p, e, now);
    WokenIsParked(s, p, e);
    forall q | 0 <= q < |s'.pcs| && s'.pcs[q].CleanLoop?
      ensures CleanCut(cfg, s', s'.pcs[q].next, s'.pcs[q].removed, s'.pcs[q].orig, s'.pcs[q].began)
    {
      if q == p {
        CleanOwn(cfg, s, p, e, now, s');
      } else {
        CleanUndisturbed(cfg, s, p, e, now, q);
      }
    }
  }

  lemma DequeueLength(idle: seq<IdleConn>, op: IdleOp)
    requires op.PopFront? ==> idle != []
    requires op.RemoveAt? ==> op.i < |idle|
    ensures |Dequeue(idle, op)| == |idle| + IdleGain(op)
  {
  }

  // ---------------------------------------------------------------- the counter

  /** Before `release`, the counter counts exactly the connections in the deque, with the callers and
      in hand, plus the drift. */
  ghost predicate Conserved(s: State) {
    !s.closed ==> s.count == |s.idle| + Sum(s.pcs, Weight) + s.drift
  }

  lemma SumAfter(s: State, p: nat, e: Effect, w: Pc -> nat)
    requires p < |s.pcs|
    requires e.wake.WakeUp? ==> e.wake.waiter < |s.pcs| && e.wake.waiter != p && w(s.pcs[e.wake.waiter]) == 0
    ensures Sum(Awaken(s.pcs, e.wake)[p := e.pc], w) + w(s.pcs[p]) ==
              Sum(s.pcs, w) + w(e.pc) + if e.wake.WakeUp? then w(e.wake.pc) else 0
  {
    SumUpdate(Awaken(s.pcs, e.wake), w, p, e.pc);
    if e.wake.WakeUp? {
      SumUpdate(s.pcs, w, e.wake.waiter, e.wake.pc);
    }
  }

  lemma CountAfter(s: State, p: nat, e: Effect, now: nat)
    requires p < |s.pcs| && Conserved(s) && (s.closed ==> e.closed)
    requires e.wake.WakeUp? ==> e.wake.waiter < |s.pcs| && e.wake.waiter != p && s.pcs[e.wake.waiter].Parked?
    requires e.idle.PopFront? ==> s.idle != []
    requires e.idle.RemoveAt? ==> e.idle.i < |s.idle|
    requires !e.closed ==>
               e.count - s.count ==
                 IdleGain(e.idle) + Weight(e.pc) - Weight(s.pcs[p]) + WakeWeight(e.wake) + (e.drift - s.drift)
    ensures Conserved(Apply(s, p, e, now))
  {
    SumAfter(s, p, e, Weight);
    DequeueLength(s.idle, e.idle);
  }

  lemma CountStep(cfg: Config, s: State, p: nat, e: Effect, now: nat)
    requires p < |s.pcs| && LockInv(s) && WaiterInv(s) && Conserved(s)
    requires Orderly(cfg, s, p, e, now) && CountMoves(cfg, s, p, e)
    ensures Conserved(Apply(s, p, e, now))
  {
    WokenIsParked(s, p, e);
    CountAfter(s, p, e, now);
  }

  ghost predicate CapInv(cfg: Config, s: State) {
    && s.count <= Capacity(cfg)
    && |s.idle| <= Max(cfg.initialCap, cfg.maxIdle)
  }

  lemma CapStep(cfg: Config, s: State, p: nat, e: Effect, now: nat)
    requires p < |s.pcs| && CapInv(cfg, s) && IdleMoves(cfg, s, p, e, now) && CountMoves(cfg, s, p, e)
    ensures CapInv(cfg, Apply(s, p, e, now))
  {
  }

  // ---------------------------------------------------------------- ownership

  function IdleIs(id: ConnId): IdleConn -> nat {
    (x: IdleConn) => if x.conn.id == id then 1 else 0
  }

  function CarriesIs(id: ConnId): Pc -> nat {
    (pc: Pc) => Carries(pc, id)
  }

  function LoggedIs(id: ConnId): ConnId -> nat {
    (x: ConnId) => if x == id then 1 else 0
  }

  /** How often a connection occurs: in the deque, in hand, among the closed and among the lost. */
  function Copies(s: State, id: ConnId): nat {
    Sum(s.idle, IdleIs(id)) + Sum(s.pcs, CarriesIs(id)) +
    Sum(s.closedLog, LoggedIs(id)) + Sum(s.lost, LoggedIs(id))
  }

  /** Every connection the factory made is in exactly one place, once; no other one is anywhere. */
  ghost predicate Owned(s: State) {
    forall id: ConnId :: Copies(s, id) == if id < |s.births| then 1 else 0
  }

  lemma RemoveCount(idle: seq<IdleConn>, i: nat, id: ConnId)
    requires i < |idle|
    ensures Sum(idle[..i] + idle[i + 1..], IdleIs(id)) + IdleIs(id)(idle[i]) == Sum(idle, IdleIs(id))
  {
    SumRemove(idle, IdleIs(id), i);
  }

  lemma PopCount(idle: seq<IdleConn>, id: ConnId)
    requires idle != []
    ensures Sum(idle[1..], IdleIs(id)) + IdleIs(id)(idle[0]) == Sum(idle, IdleIs(id))
  {
    RemoveCount(idle, 0, id);
    assert idle[..0] + idle[1..] == idle[1..];
  }

  lemma {:induction false} DequeueCount(idle: seq<IdleConn>, op: IdleOp, id: ConnId)
    requires op.PopFront? ==> idle != []
    requires op.RemoveAt? ==> op.i < |idle|
    ensures Sum(Dequeue(idle, op), IdleIs(id)) + Taken(idle, op, id) == Sum(idle, IdleIs(id)) + Returned(op, id)
  {
    match op
    case KeepIdle =>
    case PopFront => PopCount(idle, id);
    case PushBack(x) => SumAppend(idle, IdleIs(id), x);
    case RemoveAt(i) => RemoveCount(idle, i, id);
  }

  lemma LogCount(s: State, p: nat, e: Effect, now: nat, id: ConnId)
    requires p < |s.pcs|
    ensures var s' := Apply(s, p, e, now);
            Sum(s'.closedLog, LoggedIs(id)) + Sum(s'.lost, LoggedIs(id)) ==
              Sum(s.closedLog, LoggedIs(id)) + Sum(s.lost, LoggedIs(id)) + Logged(e.log, id)
  {
    if e.log.Close? {
      SumAppend(s.closedLog, LoggedIs(id), e.log.id);
    } else if e.log.Lose? {
      SumAppend(s.lost, LoggedIs(id), e.log.id);
    }
  }

  lemma CopiesAfter(cfg: Config, s: State, p: nat, e: Effect, now: nat, id: ConnId)
    requires p < |s.pcs| && WaiterInv(s) && StackMoves(s, p, e) && IdleMoves(cfg, s, p, e, now)
    requires TokensMove(s, p, e, id)
    ensures Copies(Apply(s, p, e, now), id) == Copies(s, id) + Born(s, e.log, id)
  {
    WokenIsParked(s, p, e);
    SumAfter(s, p, e, CarriesIs(id));
    DequeueCount(s.idle, e.idle, id);
    LogCount(s, p, e, now, id);
  }

  lemma OwnedStep(cfg: Config, s: State, p: nat, e: Effect, now: nat)
    requires p < |s.pcs| && WaiterInv(s) && Owned(s)
    requires Orderly(cfg, s, p, e, now) && Balanced(cfg, s, p, e, now)
    ensures Owned(Apply(s, p, e, now))
  {
    var s' := Apply(s, p, e, now);
    forall id: ConnId
      ensures Copies(s', id) == if id < |s'.births| then 1 else 0
    {
      assert TokensMove(s, p, e, id);
      CopiesAfter(cfg, s, p, e, now, id);
    }
  }

  // ---------------------------------------------------------------- creation times and age

  predicate Known(s: State, c: Conn) {
    c.id < |s.births| && c.created == s.births[c.id]
  }

  /** Wherever a connection is, it carries the creation time the factory call gave it. */
  ghost predicate BirthInv(s: State) {
    && (forall i :: 0 <= i < |s.idle| ==> Known(s, s.idle[i].conn))
    && (forall p :: 0 <= p < |s.pcs| && HasConn(s.pcs[p]) ==> Known(s, s.pcs[p].conn))
  }

  lemma PassedOnKnown(s: State, p: nat, e: Effect, c: Conn, births: seq<nat>)
    requires p < |s.pcs| && BirthInv(s) && Sourced(s, p, e, c)
    requires births == if e.log.Birth? then s.births + [e.log.at] else s.births
    ensures c.id < |births| && c.created == births[c.id]
  {
  }

  lemma BirthStep(cfg: Config, s: State, p: nat, e: Effect, now: nat)
    requires p < |s.pcs| && BirthInv(s) && ConnsMove(s, p, e) && IdleMoves(cfg, s, p, e, now)
    ensures BirthInv(Apply(s, p, e, now))
  {
    var s' := Apply(s, p, e, now);
    forall q | 0 <= q < |s'.pcs| && HasConn(s'.pcs[q])
      ensures Known(s', s'.pcs[q].conn)
    {
      if q == p || (e.wake.WakeUp? && q == e.wake.waiter) {
        PassedOnKnown(s, p, e, s'.pcs[q].conn, s'.births);
      } else {
        assert s'.pcs[q] == s.pcs[q];
      }
    }
    forall i | 0 <= i < |s'.idle|
      ensures Known(s', s'.idle[i].conn)
    {
      if e.idle.PushBack? && i == |s.idle| {
        PassedOnKnown(s, p, e, e.idle.x.conn, s'.births);
      }
    }
  }

  /** Every connection on its way out passed the age check it was last subject to. */
  ghost predicate FreshInv(cfg: Config, s: State) {
    forall p :: 0 <= p < |s.pcs| && Checked(s.pcs[p]) ==>
      s.pcs[p].checkedAt <= s.now && !LifeExpired(cfg, s.pcs[p].conn, s.pcs[p].checkedAt)
  }

  lemma FreshStep(cfg: Config, s: State, p: nat, e: Effect, now: nat)
    requires p < |s.pcs| && FreshInv(cfg, s) && Balanced(cfg, s, p, e, now) && s.now <= now
    ensures FreshInv(cfg, Apply(s, p, e, now))
  {
  }

  // ---------------------------------------------------------------- all together

  ghost predicate Inv(cfg: Config, s: State) {
    && LockInv(s) && WaiterInv(s) && IdleInv(s) && CleanInv(cfg, s) && Conserved(s) && CapInv(cfg, s)
    && Owned(s) && BirthInv(s) && FreshInv(cfg, s)
  }

  lemma InvApply(cfg: Config, s: State, p: nat, e: Effect, now: nat)
    requires p < |s.pcs| && Inv(cfg, s) && s.now <= now
    requires Orderly(cfg, s, p, e, now) && Balanced(cfg, s, p, e, now)
    ensures Inv(cfg, Apply(s, p, e, now))
  {
    LockStep(cfg, s, p, e, now);
    WaiterStep(s, p, e, now);
    IdleStep(cfg, s, p, e, now);
    CleanStep(cfg, s, p, e, now);
    CountStep(cfg, s, p, e, now);
    CapStep(cfg, s, p, e, now);
    OwnedStep(cfg, s, p, e, now);
    BirthStep(cfg, s, p, e, now);
    FreshStep(cfg, s, p, e, now);
  }

  lemma HoldsLocks(s: State, p: nat)
    requires LockInv(s) && p < |s.pcs|
    ensures HoldsItsLocks(s, p)
  {
  }

  lemma InvStep(cfg: Config, s: State, m: Move)
    requires Inv(cfg, s) && Enabled(s, m)
    ensures Inv(cfg, Step(cfg, s, m))
  {
    HoldsLocks(s, m.p);
    MoveLawful(cfg, s, m);
    InvApply(cfg, s, m.p, EffectOf(cfg, s, m), Clock(s, m));
  }

  lemma OpenMove(cfg: Config, s: State, m: Move)
    requires Inv(cfg, s) && Enabled(s, m) && !s.closed && !EffectOf(cfg, s, m).closed
    ensures !InRelease(s.pcs[m.p])
  {
  }

  lemma ClosedStaysClosed(cfg: Config, s: State, m: Move)
    requires Inv(cfg, s) && Enabled(s, m) && s.closed
    ensures EffectOf(cfg, s, m).closed
  {
    HoldsLocks(s, m.p);
    MoveLawful(cfg, s, m);
  }

  lemma {:induction false} InitialCopies(idle: seq<IdleConn>, id: ConnId)
    requires forall i :: 0 <= i < |idle| ==> idle[i].conn.id == i
    ensures Sum(idle, IdleIs(id)) == if id < |idle| then 1 else 0
  {
    if idle != [] {
      InitialCopies(idle[..|idle| - 1], id);
    }
  }

  lemma InvInit(cfg: Config, s: State)
    requires Init(cfg, s)
    ensures Inv(cfg, s)
  {
    SumZero(s.pcs, Weight);
    forall id: ConnId
      ensures Copies(s, id) == if id < |s.births| then 1 else 0
    {
      InitialCopies(s.idle, id);
      SumZero(s.pcs, CarriesIs(id));
    }
  }

  lemma InvLeads(cfg: Config, s: State, s': State)
    requires Inv(cfg, s) && Leads(Next(cfg, AllCalls), s, s')
    ensures Inv(cfg, s')
  {
    forall t, m | Inv(cfg, t) && Next(cfg, AllCalls)(t, m).Some?
      ensures Inv(cfg, Next(cfg, AllCalls)(t, m).value)
    {
      InvStep(cfg, t, m);
    }
    InvariantHolds(Next(cfg, AllCalls), (t: State) => Inv(cfg, t), s, s');
  }

  lemma InvReachable(cfg: Config, s: State)
    requires Reachable(cfg, s)
    ensures Inv(cfg, s)
  {
    var s0 :| Init(cfg, s0) && Leads(Next(cfg, AllCalls), s0, s);
    InvInit(cfg, s0);
    InvLeads(cfg, s0, s);
  }

  /** Callers that make fewer kinds of calls reach no other states. */
  lemma ReachableAnyway(cfg: Config, calls: Calls, s: State)
    requires ReachableBy(cfg, calls, s)
    ensures Reachable(cfg, s)
  {
    var s0 :| Init(cfg, s0) && Leads(Next(cfg, calls), s0, s);
    LeadsRefl(Next(cfg, AllCalls), s0);
    forall t, m | LedTo(cfg, s0, t) && Next(cfg, calls)(t, m).Some?
      ensures LedTo(cfg, s0, Next(cfg, calls)(t, m).value)
    {
      LeadsStep(Next(cfg, AllCalls), s0, t, m);
    }
    InvariantHolds(Next(cfg, calls), (t: State) => LedTo(cfg, s0, t), s0, s);
  }

  ghost predicate LedTo(cfg: Config, s0: State, s: State) {
    Leads(Next(cfg, AllCalls), s0, s)
  }
}
