/** In a safe pool every call can be brought to its end, whatever the callers have done so far. */
module PoolProgress {
  import opened Tally
  import opened Transitions
  import opened PoolMachine
  import opened PoolMoves
  import opened PoolEffects
  import opened PoolInvariants
  import opened PoolDeadlock

  /** The calls in progress go on; no other is started. */
  function Running(cfg: Config): (State, Move) -> Option<State> {
    (s: State, m: Move) => if Enabled(s, m) && m.action.Run? then Some(Step(cfg, s, m)) else None
  }

  /** How many steps a call has before it, not counting those for connections it finds in the deque. */
  function StepsLeft(pc: Pc): nat {
    match pc
    case Served(_, _) | Refused | GetLockReqs | PutOwes | PutOverflow => 1
    case GetLockCount => 2
    case GetScan => 3
    case GetOwes | GetLockIdle => 4
    case GetEnter => 5
    case PutLockIdle(_) => 4
    case PutLockReqs(_, _) => 5
    case PutEnter(_) => 6
    case CleanLoop(next, _, _, _) => 1 + next
    case CleanLockCount => 2
    case CleanLockIdle => 3
    case CleanEnter => 4
    case _ => 0
  }

  /** A connection in the deque costs a `get` two more steps, and a third step puts it there. */
  function Work(s: State): nat {
    Sum(s.pcs, StepsLeft) + 3 * |s.idle|
  }

  ghost predicate LessWork(s: State, p: nat, e: Effect)
    requires p < |s.pcs|
  {
    StepsLeft(e.pc) + (if e.wake.WakeUp? then StepsLeft(e.wake.pc) else 0) + 3 * IdleGain(e.idle) < StepsLeft(s.pcs[p])
  }

  lemma GetWorks(cfg: Config, s: State, p: nat, env: Env)
    requires p < |s.pcs| && InGet(s.pcs[p])
    ensures LessWork(s, p, GetSection(cfg, s, p, env))
  {
  }

  lemma PutWorks(cfg: Config, s: State, p: nat, env: Env)
    requires p < |s.pcs| && InPut(s.pcs[p])
    ensures LessWork(s, p, PutSection(cfg, s, p, env))
  {
  }

  lemma CleanWorks(cfg: Config, s: State, p: nat, env: Env)
    requires p < |s.pcs| && InClean(s.pcs[p]) && IndicesOk(s, p) && (s.pcs[p].CleanLockCount? ==> s.idle == [])
    ensures LessWork(s, p, CleanSection(cfg, s, p, env))
  {
  }

  lemma CallWorks(cfg: Config, calls: Calls, s: State, p: nat, env: Env)
    requires CallsInv(cfg, calls, s) && Safe(cfg, calls) && Enabled(s, Move(p, Run(env)))
    ensures LessWork(s, p, EffectOf(cfg, s, Move(p, Run(env))))
  {
    assert CallsPc(cfg, calls, s.pcs[p]);
    if InGet(s.pcs[p]) {
      GetWorks(cfg, s, p, env);
    } else if InPut(s.pcs[p]) {
      PutWorks(cfg, s, p, env);
    } else {
      CleanWorks(cfg, s, p, env);
    }
  }

  lemma WorkDone(cfg: Config, calls: Calls, s: State, p: nat, env: Env)
    requires CallsInv(cfg, calls, s) && Safe(cfg, calls) && Enabled(s, Move(p, Run(env)))
    ensures Work(Step(cfg, s, Move(p, Run(env)))) < Work(s)
  {
    var m := Move(p, Run(env));
    var e := EffectOf(cfg, s, m);
    CallWorks(cfg, calls, s, p, env);
    HoldsLocks(s, p);
    MoveLawful(cfg, s, m);
    WokenIsParked(s, p, e);
    SumAfter(s, p, e, StepsLeft);
    DequeueLength(s.idle, e.idle);
  }

  lemma IndicesInRange(cfg: Config, s: State, p: nat)
    requires Inv(cfg, s) && p < |s.pcs|
    ensures IndicesOk(s, p)
  {
    if s.pcs[p].CleanLoop? {
      assert CleanCut(cfg, s, s.pcs[p].next, s.pcs[p].removed, s.pcs[p].orig, s.pcs[p].began);
    }
  }

  /** Some call can go on. */
  lemma SomeoneRuns(cfg: Config, calls: Calls, s: State) returns (p: nat)
    requires CallsInv(cfg, calls, s) && Safe(cfg, calls)
    requires exists q :: 0 <= q < |s.pcs| && Active(s.pcs[q])
    ensures Enabled(s, Move(p, Run(Fair(s.now))))
  {
    NotStuck(cfg, calls, s);
    p :| 0 <= p < |s.pcs| && Active(s.pcs[p]) && CanRun(s, p);
    IndicesInRange(cfg, s, p);
  }

  ghost predicate AllOver(s: State) {
    forall p :: 0 <= p < |s.pcs| ==> !Active(s.pcs[p])
  }

  lemma {:induction false} Finishes(cfg: Config, calls: Calls, s: State) returns (s': State)
    requires CallsInv(cfg, calls, s) && Safe(cfg, calls)
    ensures Leads(Running(cfg), s, s') && AllOver(s') && |s'.pcs| == |s.pcs|
    decreases Work(s)
  {
    if AllOver(s) {
      s' := s;
      LeadsRefl(Running(cfg), s);
    } else {
      var p := SomeoneRuns(cfg, calls, s);
      var m := Move(p, Run(Fair(s.now)));
      var s1 := Step(cfg, s, m);
      CallsStep(cfg, calls, s, m);
      WorkDone(cfg, calls, s, p, Fair(s.now));
      s' := Finishes(cfg, calls, s1);
      LeadsRefl(Running(cfg), s);
      LeadsStep(Running(cfg), s, s, m);
      LeadsTrans(Running(cfg), s, s1, s');
    }
  }

  ghost predicate CanGoOn(s: State) {
    exists p: nat, env :: Enabled(s, Move(p, Run(env)))
  }

  lemma WorkGetsLess(cfg: Config, calls: Calls, s: State, m: Move)
    requires CallsInv(cfg, calls, s) && Safe(cfg, calls) && Running(cfg)(s, m).Some?
    ensures CallsInv(cfg, calls, Running(cfg)(s, m).value) && Work(Running(cfg)(s, m).value) < Work(s)
  {
    CallsStep(cfg, calls, s, m);
    WorkDone(cfg, calls, s, m.p, m.action.env);
  }

  lemma GoesOn(cfg: Config, calls: Calls, s: State)
    requires CallsInv(cfg, calls, s) && Safe(cfg, calls)
    ensures CanGoOn(s) <==> !AllOver(s)
  {
    if !AllOver(s) {
      var p := SomeoneRuns(cfg, calls, s);
    }
    if p: nat, env :| Enabled(s, Move(p, Run(env))) {
      assert Active(s.pcs[p]);
    }
  }

  /** In a safe pool, from every reachable state: whatever way the calls in progress go on with no new call
      made, they make no more steps than there is work, and can go on exactly until each is at its end or in
      the queue. */
  lemma EveryRunEnds(cfg: Config, calls: Calls, s: State)
    requires Safe(cfg, calls) && ReachableBy(cfg, calls, s)
    ensures forall run, s' :: Runs(Running(cfg), s, run, s') ==>
              |run| + Work(s') <= Work(s) && (CanGoOn(s') <==> !AllOver(s'))
  {
    CallsReachable(cfg, calls, s);
    forall t, m | CallsInv(cfg, calls, t) && Running(cfg)(t, m).Some?
      ensures CallsInv(cfg, calls, Running(cfg)(t, m).value) && Work(Running(cfg)(t, m).value) < Work(t)
    {
      WorkGetsLess(cfg, calls, t, m);
    }
    forall run, s' | Runs(Running(cfg), s, run, s')
      ensures |run| + Work(s') <= Work(s) && (CanGoOn(s') <==> !AllOver(s'))
    {
      RankAlongRun(Running(cfg), (t: State) => CallsInv(cfg, calls, t), (t: State) => Work(t), s, run, s');
      GoesOn(cfg, calls, s');
    }
  }

  /** From every reachable state of a safe pool the calls in progress can all go on to their ends, or to
      their place in the queue, with no new call made. */
  lemma EveryCallEnds(cfg: Config, calls: Calls, s: State) returns (s': State)
    requires Safe(cfg, calls) && ReachableBy(cfg, calls, s)
    ensures Leads(Running(cfg), s, s') && |s'.pcs| == |s.pcs|
    ensures forall p :: 0 <= p < |s'.pcs| ==> s'.pcs[p].Ready? || s'.pcs[p].Holding? || s'.pcs[p].Parked?
  {
    CallsReachable(cfg, calls, s);
    s' := Finishes(cfg, calls, s);
  }
}
