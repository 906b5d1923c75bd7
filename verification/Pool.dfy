/** The pool itself: the operations of the source on its mutable fields.  Each runs from call to return
    with no other caller in between and is an execution of the step system of PoolMachine, so what
    holds of all interleavings holds of these runs too. */
module PoolImplementation {
  import opened Tally
  import opened Transitions
  import opened PoolMachine
  import opened PoolMoves
  import opened PoolInvariants
  import opened PoolOperations

  /** Whoever was served or refused finds that in its oneshot. */
  ghost predicate Delivered(pcs: seq<Pc>, sent: map<nat, GetResult>) {
    && (forall p: nat :: p < |pcs| && pcs[p].Served? ==> p in sent && sent[p] == Got(pcs[p].conn))
    && (forall p: nat :: p < |pcs| && pcs[p].Refused? ==> p in sent && sent[p] == GetClosed)
  }

  lemma RefuseDelivers(pcs: seq<Pc>, reqs: seq<Request>, sent: map<nat, GetResult>, sent': map<nat, GetResult>)
    requires Delivered(pcs, sent)
    requires forall p :: Waiting(p) in reqs ==> p in sent' && sent'[p] == GetClosed
    requires forall p :: Waiting(p) !in reqs && p in sent ==> p in sent' && sent'[p] == sent[p]
    ensures Delivered(Refuse(pcs, reqs), sent')
  {
  }

  class Pool {
    const cfg: Config
    var idleConns: seq<IdleConn>
    var openingConns: int
    var closed: bool
    var connReqs: seq<Request>
    var clock: nat
    var made: nat          // the identities the factory has given out
    var shut: seq<ConnId>  // the connections the closer has closed
    var sent: map<nat, GetResult>  // what the oneshots of parked callers carry, once it is sent
    ghost var st: State

    /** The fields are those of the step system's state. */
    ghost predicate Matches()
      reads this
    {
      && st.idle == idleConns && st.count == openingConns && st.closed == closed && st.reqs == connReqs
      && st.now == clock && |st.births| == made && st.closedLog == shut
    }

    /** That state is reachable, and no call is in progress. */
    ghost predicate Valid()
      reads this
    {
      Matches() && Reachable(cfg, st) && AllAtRest(st.pcs) && Delivered(st.pcs, sent)
    }

    function Fields(): Shared
      reads this`idleConns, this`openingConns, this`connReqs, this`shut
    {
      Shared(idleConns, openingConns, connReqs, shut)
    }

    ghost function Machine(): (State, Move) -> Option<State> {
      Next(cfg, AllCalls)
    }

    /** The clock never goes back. */
    method Now() returns (t: nat)
      modifies this`clock
      ensures t == clock && old(clock) <= t
    {
      var passed: int := *;
      if passed > 0 {
        clock := clock + passed;
      }
      t := clock;
    }

    /** The closer. */
    method Close(c: Conn) returns (ok: bool)
      modifies this`shut
      ensures shut == if ok then old(shut) + [c.id] else old(shut)
    {
      ok := *;
      if ok {
        shut := shut + [c.id];
      }
    }

    /** The outcome of the pinger or the factory. */
    method Foreign() returns (ok: bool) {
      ok := *;
    }

    /** The machine has come from s0 and goes on to t. */
    ghost method Advance(s0: State, t: State)
      requires Leads(Machine(), s0, st) && Leads(Machine(), st, t)
      modifies this`st
      ensures st == t && Leads(Machine(), s0, st)
    {
      LeadsTrans(Machine(), s0, st, t);
      st := t;
    }

    ghost function Env0(): Env
      reads this`clock
    {
      Env(clock, clock, true, true, true)
    }

    /** The three checks `get` makes on a popped connection, in order, with the clock read before each
        of the first two; the closer is called only if one of them fails. */
    method Inspect(x: IdleConn) returns (evict: bool, env: Env)
      modifies this`clock, this`shut
      ensures old(clock) <= env.t <= env.t2 == clock
      ensures evict == Evicted(cfg, x, env)
      ensures shut == if evict && env.closerOk then old(shut) + [x.conn.id] else old(shut)
    {
      var t := Now();
      if IdleExpired(cfg, x, t) {
        var closerOk := Close(x.conn);
        return true, Env(t, t, closerOk, true, true);
      }
      var t2 := Now();
      if LifeExpired(cfg, x.conn, t2) {
        var closerOk := Close(x.conn);
        return true, Env(t, t2, closerOk, true, true);
      }
      if cfg.hasPinger {
        var pingOk := Foreign();
        if !pingOk {
          var closerOk := Close(x.conn);
          return true, Env(t, t2, closerOk, false, true);
        }
      }
      return false, Env(t, t2, true, true, true);
    }

    ghost method DidEvict(s0: State, p: nat, env: Env)
      requires Leads(Machine(), s0, st) && p < |st.pcs| && st.pcs[p].GetScan? && st.locks.count.Free?
      requires st.idle != [] && Timely(st, env) && Evicted(cfg, st.idle[0], env)
      modifies this`st
      ensures Leads(Machine(), s0, st) && st.pcs == old(st).pcs && st.locks == old(st).locks
      ensures st.idle == old(st).idle[1..] && st.count == old(st).count - 1 && st.now == env.t2
      ensures st.closed == old(st).closed && st.reqs == old(st).reqs && st.births == old(st).births
      ensures st.closedLog == if env.closerOk then old(st).closedLog + [old(st).idle[0].conn.id] else old(st).closedLog
    {
      EvictMoves(cfg, AllCalls, st, p, env);
      assert st.pcs[p := GetScan] == st.pcs;
      Advance(s0, AfterEvict(st, p, env));
    }

    ghost method DidTake(s0: State, p: nat, env: Env)
      requires Leads(Machine(), s0, st) && p < |st.pcs| && st.pcs[p].GetScan?
      requires st.idle != [] && Timely(st, env) && !Evicted(cfg, st.idle[0], env)
      modifies this`st
      ensures Leads(Machine(), s0, st) && st.pcs == old(st).pcs[p := Holding(old(st).idle[0].conn, env.t2)]
      ensures st.locks == old(st).locks.(idle := Free) && st.idle == old(st).idle[1..] && st.now == env.t2
      ensures st.count == old(st).count && st.closed == old(st).closed
      ensures st.reqs == old(st).reqs && st.births == old(st).births
      ensures st.closedLog == old(st).closedLog
    {
      ScanTakeMove(cfg, AllCalls, st, p, env);
      Advance(s0, At(st, p, Holding(st.idle[0].conn, env.t2), env.t2).(
                    idle := st.idle[1..], locks := st.locks.(idle := Free)));
    }

    /** The block of `get` that looks for an idle connection: it drops connections from the front
        until one is neither expired nor dead. */
    method GetIdle(p: nat) returns (r: Option<Conn>)
      requires Matches() && p < |st.pcs| && st.pcs[p].GetLockIdle?
      requires st.locks == Locks(Free, Free, Free, Free)
      modifies this`idleConns, this`openingConns, this`clock, this`shut, this`st
      ensures Matches() && Leads(Machine(), old(st), st) && st.locks == old(st).locks
      ensures match r
              case None => Emptied(cfg, clock, old(Fields()), Fields()) && st.pcs == old(st).pcs[p := GetLockCount]
              case Some(c) =>
                && FromDeque(cfg, c, old(clock), clock, old(Fields()), Fields())
                && st.pcs == old(st).pcs[p := Holding(c, clock)]
    {
      ghost var s0 := st;
      LeadsRefl(Machine(), st);
      GetLockIdleMove(cfg, AllCalls, st, p, Env0());
      Advance(s0, At(st, p, GetScan, clock).(locks := st.locks.(idle := By(p))));
      r := Scan(p, s0);
      if r.None? {
        ScanEmptyMove(cfg, AllCalls, st, p, Env0());
        Advance(s0, At(st, p, GetLockCount, clock).(locks := st.locks.(idle := Free)));
      }
    }

    /** One turn of the loop in it: the front connection is handed out, or thrown away and counted out. */
    method ScanFront(p: nat, ghost s0: State) returns (r: Option<Conn>, ghost env: Env)
      requires Matches() && p < |st.pcs| && st.pcs[p].GetScan? && idleConns != []
      requires st.locks == Locks(By(p), Free, Free, Free) && Leads(Machine(), s0, st)
      modifies this`idleConns, this`openingConns, this`clock, this`shut, this`st
      ensures Matches() && Leads(Machine(), s0, st)
      ensures old(clock) <= env.t <= env.t2 == clock
      ensures r == if Evicted(cfg, old(idleConns)[0], env) then None else Some(old(idleConns)[0].conn)
      ensures r.None? ==>
                && Fields() == WithoutFront(old(Fields()), env.closerOk)
                && st.pcs == old(st).pcs && st.locks == old(st).locks
      ensures r.Some? ==>
                && Fields() == old(Fields()).(idle := old(idleConns)[1..])
                && st.pcs == old(st).pcs[p := Holding(r.value, clock)] && st.locks == Locks(Free, Free, Free, Free)
    {
      var x := idleConns[0];
      idleConns := idleConns[1..];
      var evict, e := Inspect(x);
      env := e;
      if evict {
        openingConns := openingConns - 1;
        DidEvict(s0, p, env);
        r := None;
      } else {
        DidTake(s0, p, env);
        r := Some(x.conn);
      }
    }

    /** The loop in it. */
    method Scan(p: nat, ghost s0: State) returns (r: Option<Conn>)
      requires Matches() && p < |st.pcs| && st.pcs[p].GetScan?
      requires st.locks == Locks(By(p), Free, Free, Free) && Leads(Machine(), s0, st)
      modifies this`idleConns, this`openingConns, this`clock, this`shut, this`st
      ensures Matches() && Leads(Machine(), s0, st)
      ensures match r
              case None =>
                Emptied(cfg, clock, old(Fields()), Fields()) && st.pcs == old(st).pcs && st.locks == old(st).locks
              case Some(c) =>
                && FromDeque(cfg, c, old(clock), clock, old(Fields()), Fields())
                && st.pcs == old(st).pcs[p := Holding(c, clock)] && st.locks == Locks(Free, Free, Free, Free)
    {
      ghost var k, before := 0, Fields();
      ScanBegins(cfg, clock, before);
      while idleConns != []
        invariant Matches() && Leads(Machine(), s0, st)
        invariant st.pcs == old(st).pcs && st.locks == old(st).locks
        invariant old(clock) <= clock && Scanned(cfg, k, clock, before, Fields())
        decreases |idleConns|
      {
        ghost var t, between := clock, Fields();
        ghost var env;
        r, env := ScanFront(p, s0);
        if r.Some? {
          ScanTakes(cfg, k, old(clock), t, env, before, between);
          return;
        }
        ScanDrops(cfg, k, t, env, before, between);
        k := k + 1;
      }
      ScanEnds(cfg, k, clock, before, Fields());
      return None;
    }

    ghost method DidCreate(p: nat, t: nat)
      requires p < |st.pcs| && st.pcs[p].GetLockCount? && st.locks == Locks(Free, Free, Free, Free)
      requires st.count < cfg.maxCap && st.now <= t
      modifies this`st
      ensures Leads(Machine(), old(st), st)
      ensures st == Made(old(st), p, t)
    {
      CreateMove(cfg, AllCalls, st, p, Env(t, t, true, true, true));
      st := Made(st, p, t);
    }

    ghost method DidPark(p: nat)
      requires p < |st.pcs| && st.pcs[p].GetLockCount? && st.locks == Locks(Free, Free, Free, Free)
      requires st.count >= cfg.maxCap && st.now == clock
      modifies this`st
      ensures Leads(Machine(), old(st), st)
      ensures st == At(old(st), p, Parked, clock).(reqs := old(st).reqs + [Waiting(p)])
    {
      ghost var s0 := st;
      LeadsRefl(Machine(), st);
      FullMove(cfg, AllCalls, st, p, Env0());
      Advance(s0, At(st, p, GetLockReqs, clock).(locks := st.locks.(count := By(p))));
      ParkMove(cfg, AllCalls, st, p, Env0());
      assert st.pcs[p := Parked] == s0.pcs[p := Parked];
      Advance(s0, At(st, p, Parked, clock).(reqs := st.reqs + [Waiting(p)], locks := st.locks.(count := Free)));
    }

    /** The rest of `get`: wait if the cap is reached, otherwise make a connection. */
    method GetBeyond(p: nat) returns (r: GetResult)
      requires Matches() && p < |st.pcs| && st.pcs[p].GetLockCount? && idleConns == []
      requires st.locks == Locks(Free, Free, Free, Free)
      modifies this`openingConns, this`connReqs, this`clock, this`made, this`st
      ensures Matches() && Leads(Machine(), old(st), st) && st.locks == old(st).locks && old(clock) <= clock
      ensures BeyondDoes(cfg, r, p, old(made), clock, old(Fields()), Fields())
      ensures st.pcs == old(st).pcs[p := PcAfterGet(r)]
    {
      if openingConns >= cfg.maxCap {
        connReqs := connReqs + [Waiting(p)];
        DidPark(p);
        return Waits;
      }
      var factoryOk := Foreign();
      if !factoryOk {
        FactoryFailsMove(cfg, AllCalls, st, p, Env0().(factoryOk := false));
        st := At(st, p, Ready, clock);
        return FactoryFailed;
      }
      openingConns := openingConns + 1;
      var t := Now();
      var c := Conn(made, t);
      made := made + 1;
      DidCreate(p, t);
      return Got(c);
    }

    ghost function PcAfterGet(r: GetResult): Pc
      reads this`clock
    {
      match r case Got(c) => Holding(c, clock) case Waits => Parked case _ => Ready
    }

    method GetWhenOpen(p: nat) returns (r: GetResult)
      requires Matches() && p < |st.pcs| && st.pcs[p].GetLockIdle?
      requires st.locks == Locks(Free, Free, Free, Free)
      modifies this`idleConns, this`openingConns, this`connReqs, this`clock, this`made, this`shut, this`st
      ensures Matches() && Leads(Machine(), old(st), st)
      ensures GetDoes(cfg, r, p, old(made), old(clock), clock, old(Fields()), Fields())
      ensures st.pcs == old(st).pcs[p := PcAfterGet(r)]
    {
      var idle := GetIdle(p);
      if idle.Some? {
        r := Got(idle.value);
      } else {
        ghost var s1, t, between := st, clock, Fields();
        r := GetBeyond(p);
        GetGoesBeyond(cfg, r, p, old(made), old(clock), t, clock, old(Fields()), between, Fields());
        LeadsTrans(Machine(), old(st), s1, st);
        assert old(st).pcs[p := GetLockCount][p := PcAfterGet(r)] == old(st).pcs[p := PcAfterGet(r)];
      }
    }

    ghost method DidCall(p: nat, action: Action, enter: Pc)
      requires Valid() && p < |st.pcs|
      requires (action == CallGet && st.pcs[p].Ready? && enter == GetEnter)
            || (action == CallPut && st.pcs[p].Holding? && enter == PutEnter(st.pcs[p].conn))
            || (action == CallClean && st.pcs[p].Ready? && enter == CleanEnter)
            || (action == CallRelease && st.pcs[p].Ready? && enter == RelEnter)
      modifies this`st
      ensures Leads(Machine(), old(st), st) && Matches()
      ensures st == At(old(st), p, enter, clock) && st.locks == Locks(Free, Free, Free, Free)
    {
      RestIsUnlocked(cfg, st);
      CallMove(cfg, AllCalls, st, p, action, enter);
      st := At(st, p, enter, clock);
    }

    ghost method EntersGet(p: nat)
      requires Valid() && p < |st.pcs| && st.pcs[p].Ready? && !closed
      modifies this`st
      ensures Leads(Machine(), old(st), st) && Matches() && st.locks == Locks(Free, Free, Free, Free)
      ensures st.pcs == old(st).pcs[p := GetLockIdle]
    {
      ghost var s0 := st;
      DidCall(p, CallGet, GetEnter);
      GetEnterMove(cfg, AllCalls, st, p, Env0());
      assert st.pcs[p := GetLockIdle] == s0.pcs[p := GetLockIdle];
      Advance(s0, At(st, p, GetLockIdle, clock));
    }

    ghost method IsRefused(p: nat)
      requires Valid() && p < |st.pcs| && st.pcs[p].Ready? && closed
      modifies this`st
      ensures Leads(Machine(), old(st), st) && Matches() && st.pcs == old(st).pcs
    {
      ghost var s0 := st;
      DidCall(p, CallGet, GetEnter);
      GetRefusedMove(cfg, AllCalls, st, p, Env0());
      assert st.pcs[p := Ready] == s0.pcs;
      Advance(s0, At(st, p, Ready, clock));
    }

    /** `get`, started and answered with no other caller in between; a caller that must wait is left
        parked, see Receive. */
    method Get(p: nat) returns (r: GetResult)
      requires Valid() && p < |st.pcs| && st.pcs[p].Ready?
      modifies this`idleConns, this`openingConns, this`connReqs, this`clock, this`made, this`shut, this`st
      ensures Valid() && Leads(Machine(), old(st), st)
      ensures old(closed) ==> r == GetClosed && Fields() == old(Fields())
      ensures !old(closed) ==> GetDoes(cfg, r, p, old(made), old(clock), clock, old(Fields()), Fields())
      ensures st.pcs == old(st).pcs[p := PcAfterGet(r)]
      ensures r.Got? && cfg.maxLifetime > 0 ==> Elapsed(r.conn.created, clock) <= cfg.maxLifetime
    {
      ghost var s0 := st;
      if closed {
        IsRefused(p);
        r := GetClosed;
      } else {
        EntersGet(p);
        ghost var s1 := st;
        r := GetWhenOpen(p);
        LeadsTrans(Machine(), s0, s1, st);
        assert s0.pcs[p := GetLockIdle][p := PcAfterGet(r)] == s0.pcs[p := PcAfterGet(r)];
      }
      ReachableOn(cfg, s0, st);
      if r.Got? {
        HeldIsYoung(cfg, st, p);
      }
    }

    /** The end of a `get` that had to wait: it takes what came through its oneshot, the connection of the
        caller that put it back, or the refusal of `release`. */
    method Receive(p: nat) returns (r: GetResult)
      requires Valid() && p < |st.pcs| && (st.pcs[p].Served? || st.pcs[p].Refused?)
      modifies this`st
      ensures Valid() && Leads(Machine(), old(st), st)
      ensures match old(st).pcs[p]
              case Served(conn, checkedAt) =>
                && r == Got(conn) && st.pcs == old(st).pcs[p := Holding(conn, checkedAt)]
                && (cfg.maxLifetime > 0 ==> Elapsed(conn.created, checkedAt) <= cfg.maxLifetime)
              case _ => r == GetClosed && st.pcs == old(st).pcs[p := Ready]
    {
      r := sent[p];
      ghost var s0 := st;
      ReceiveMove(cfg, AllCalls, st, p, Env0());
      st := Here(st, p, AfterOneshot(st.pcs[p]));
      ReachableOn(cfg, s0, st);
      if s0.pcs[p].Served? {
        HeldIsYoung(cfg, st, p);
      }
    }

    /** A whole `put` took the machine from the state before it to t. */
    ghost method Did(t: State)
      requires Reachable(cfg, st) && AllAtRest(st.pcs) && Leads(Machine(), st, t) && AllAtRest(t.pcs)
      modifies this`st
      ensures st == t && Reachable(cfg, st) && Leads(Machine(), old(st), st) && AllAtRest(st.pcs)
    {
      ReachableOn(cfg, st, t);
      st := t;
    }

    /** `put` once it has found the pool open; t is the time of the age check. */
    method PutWhenOpen(conn: Conn) returns (r: PutResult, ghost t: nat)
      modifies this`idleConns, this`openingConns, this`connReqs, this`clock, this`shut, this`sent
      ensures sent == if r.Handed? then old(sent)[r.waiter := Got(conn)] else old(sent)
      ensures PutDoes(cfg, r, conn, t, clock, old(Fields()), Fields()) && !r.Ignored?
      ensures old(clock) <= t <= clock && (r.Returned? || t == clock)
    {
      var checked := Now();
      t := checked;
      if LifeExpired(cfg, conn, checked) {
        var closerOk := Close(conn);
        openingConns := openingConns - 1;
        r := Retired(closerOk);
      } else if connReqs != [] {
        var req := connReqs[|connReqs| - 1];
        connReqs := connReqs[..|connReqs| - 1];
        if req.Waiting? {
          sent := sent[req.waiter := Got(conn)];
          r := Handed(req.waiter);
        } else {
          var closerOk := Close(conn);
          openingConns := openingConns - 1;
          r := Undelivered(closerOk);
        }
      } else if |idleConns| < cfg.maxIdle {
        var now := Now();
        idleConns := idleConns + [IdleConn(conn, now)];
        r := Returned;
      } else {
        var closerOk := Close(conn);
        if closerOk {
          openingConns := openingConns - 1;
          r := Overflowed;
        } else {
          r := CloseFailed;
        }
      }
    }

    /** `put`, from call to return with no other caller in between; t is the time of the age check. */
    method Put(p: nat, conn: Conn) returns (r: PutResult, ghost t: nat)
      requires Valid() && p < |st.pcs| && st.pcs[p].Holding? && st.pcs[p].conn == conn
      modifies this`idleConns, this`openingConns, this`connReqs, this`clock, this`shut, this`sent, this`st
      ensures Valid() && Leads(Machine(), old(st), st)
      ensures r.Ignored? <==> old(closed)
      ensures PutDoes(cfg, r, conn, t, clock, old(Fields()), Fields()) && old(clock) <= t <= clock
      ensures PutMoves(r, p, conn, old(st).pcs, st.pcs)
    {
      t := clock;
      if closed {
        r := Ignored;
      } else {
        r, t := PutWhenOpen(conn);
      }
      ghost var after := PutRun(cfg, st, p, conn, r, t, clock, Fields());
      Did(after);
    }

    /** One turn of the loop of `clean_idle_conns`: connection i - 1 is dropped, if it has expired, unless
        the closer fails. */
    method LookAt(i: nat, ghost orig: seq<IdleConn>, ghost removed: nat, ghost began: nat)
      returns (ok: bool, gone: bool)
      requires 0 < i && Sorted(orig) && CleanStands(cfg, orig, i, removed, began, clock) && began <= clock
      requires idleConns == Without(orig, i, removed)
      modifies this`idleConns, this`clock, this`shut
      ensures old(clock) <= clock
      ensures !ok ==>
                && idleConns == old(idleConns) && shut == old(shut) && CleanStands(cfg, orig, i, removed, began, clock)
                && forall j :: 0 <= j < i + removed ==> IdleExpired(cfg, orig[j], clock)
      ensures ok && gone ==>
                && CleanStands(cfg, orig, i - 1, removed + 1, began, clock)
                && idleConns == Without(orig, i - 1, removed + 1) && shut == old(shut) + [orig[i - 1].conn.id]
      ensures ok && !gone ==>
                && CleanStands(cfg, orig, i - 1, removed, began, clock) && removed == 0
                && idleConns == old(idleConns) && shut == old(shut)
    {
      ghost var before := clock;
      CutKeeps(orig, i, removed);
      var t := Now();
      CleanGoesOn(cfg, orig, i, removed, began, before, t);
      if !IdleExpired(cfg, idleConns[i - 1], t) {
        return true, false;
      }
      var closed := Close(idleConns[i - 1].conn);
      if !closed {
        return false, false;
      }
      WithoutOneMore(orig, i, removed);
      idleConns := idleConns[..i - 1] + idleConns[i..];
      return true, true;
    }

    /** The loop, from the back of the deque, until a closer fails: i connections are left to look at, the
        `removed` behind them are gone. */
    method DropExpired() returns (ok: bool, i: nat, removed: nat)
      requires Sorted(idleConns)
      modifies this`idleConns, this`clock, this`shut
      ensures i + removed <= |old(idleConns)| && shut == old(shut) + Closings(old(idleConns), i, removed)
      ensures old(clock) <= clock && CleanStands(cfg, old(idleConns), i, removed, old(clock), clock)
      ensures idleConns == Without(old(idleConns), i, removed)
      ensures if ok then i == 0 else i > 0
      ensures !ok ==> forall j :: 0 <= j < i + removed ==> IdleExpired(cfg, old(idleConns)[j], clock)
    {
      ghost var orig, began := idleConns, clock;
      ok, i, removed := true, |idleConns|, 0;
      WithoutNone(orig, i);
      while i > 0
        invariant ok && began <= clock && CleanStands(cfg, orig, i, removed, began, clock)
        invariant idleConns == Without(orig, i, removed)
        invariant shut == old(shut) + Closings(orig, i, removed)
      {
        var gone;
        ok, gone := LookAt(i, orig, removed, began);
        if !ok {
          return;
        }
        i := i - 1;
        if gone {
          removed := removed + 1;
        } else {
          WithoutNone(orig, i);
          WithoutNone(orig, i + 1);
        }
      }
    }

    ghost method DidClean(p: nat, ok: bool, i: nat, removed: nat)
      requires Reachable(cfg, st) && AllAtRest(st.pcs) && p < |st.pcs| && st.pcs[p].Ready? && !closed
      requires st.reqs == connReqs && st.closed == closed && |st.births| == made && st.now <= clock
      requires CleanStands(cfg, st.idle, i, removed, st.now, clock) && (if ok then i == 0 else i > 0)
      requires !ok ==> forall j :: 0 <= j < i + removed ==> IdleExpired(cfg, st.idle[j], clock)
      requires idleConns == Without(st.idle, i, removed)
      requires shut == st.closedLog + Closings(st.idle, i, removed)
      requires openingConns == st.count - if ok then removed else 0
      modifies this`st
      ensures Matches() && Reachable(cfg, st) && Leads(Machine(), old(st), st) && st.pcs == old(st).pcs
      ensures CleanDoes(cfg, ok, old(st).now, clock, SharedOf(old(st)), Fields())
    {
      CleanRun(cfg, AllCalls, st, p, ok, i, removed, clock);
      Did(Cleaned(st, p, ok, i, removed, clock));
      assert Fields() == SharedOf(st);
    }

    /** `clean_idle_conns`, from call to return with no other caller in between. */
    method CleanIdleConns(p: nat) returns (ok: bool)
      requires Valid() && p < |st.pcs| && st.pcs[p].Ready?
      modifies this`idleConns, this`openingConns, this`clock, this`shut, this`st
      ensures Valid() && Leads(Machine(), old(st), st) && st.pcs == old(st).pcs
      ensures old(closed) ==> ok && Fields() == old(Fields())
      ensures !old(closed) ==> CleanDoes(cfg, ok, old(clock), clock, old(Fields()), Fields())
    {
      if closed {
        CleanRefused(cfg, st, p);
        Did(st);
        return true;
      }
      IdleIsSorted(cfg, st);
      var i, removed;
      ok, i, removed := DropExpired();
      if ok {
        openingConns := openingConns - removed;
      }
      DidClean(p, ok, i, removed);
    }

    // ---------------------------------------------------------------- release

    /** The first loop of `release`: closes from the front until a closer fails on connection k. */
    method CloseIdle() returns (ok: bool, ghost k: nat)
      modifies this`idleConns, this`shut
      ensures if ok then idleConns == [] && shut == old(shut) + Ids(old(idleConns))
              else
                && k < |old(idleConns)| && idleConns == old(idleConns)[k + 1..]
                && shut == old(shut) + Ids(old(idleConns)[..k])
    {
      ghost var orig := idleConns;
      k := 0;
      while idleConns != []
        invariant k <= |orig| && idleConns == orig[k..]
        invariant shut == old(shut) + Ids(orig[..k])
        decreases |idleConns|
      {
        var x := idleConns[0];
        idleConns := idleConns[1..];
        var closerOk := Close(x.conn);
        if !closerOk {
          return false, k;
        }
        IdsStep(orig, k);
        k := k + 1;
      }
      assert orig[..|orig|] == orig;
      ok := true;
    }

    /** The second: every waiter is sent the Closed error. */
    method RefuseWaiters()
      modifies this`connReqs, this`sent
      ensures connReqs == []
      ensures forall p :: Waiting(p) in old(connReqs) ==> p in sent && sent[p] == GetClosed
      ensures forall p :: Waiting(p) !in old(connReqs) && p in old(sent) ==> p in sent && sent[p] == old(sent)[p]
    {
      ghost var d := 0;
      while connReqs != []
        invariant d <= |old(connReqs)| && connReqs == old(connReqs)[d..]
        invariant forall p :: Waiting(p) in old(connReqs)[..d] ==> p in sent && sent[p] == GetClosed
        invariant forall p :: Waiting(p) !in old(connReqs) && p in old(sent) ==> p in sent && sent[p] == old(sent)[p]
        decreases |connReqs|
      {
        var req := connReqs[0];
        connReqs := connReqs[1..];
        if req.Waiting? {
          sent := sent[req.waiter := GetClosed];
        }
        assert old(connReqs)[..d + 1] == old(connReqs)[..d] + [req];
        d := d + 1;
      }
      assert old(connReqs)[..d] == old(connReqs);
    }

    ghost method DidRelease(p: nat, ok: bool, k: nat)
      requires Reachable(cfg, st) && AllAtRest(st.pcs) && p < |st.pcs| && st.pcs[p].Ready? && (ok || k < |st.idle|)
      modifies this`st
      ensures st == (if ok then Released(old(st)) else ReleaseFailed(old(st), k))
      ensures Reachable(cfg, st) && AllAtRest(st.pcs) && Leads(Machine(), old(st), st)
    {
      RestIsUnlocked(cfg, st);
      if ok {
        ReleaseSucceeds(cfg, AllCalls, st, p);
        RefusedAtRest(st.pcs, st.reqs);
        Did(Released(st));
      } else {
        ReleaseFails(cfg, st, p, k);
        Did(ReleaseFailed(st, k));
      }
    }

    /** The body of `release`. */
    method ReleaseAll() returns (ok: bool, ghost k: nat)
      modifies this`idleConns, this`openingConns, this`connReqs, this`closed, this`shut, this`sent
      ensures closed && ReleaseDoes(ok, old(Fields()), Fields())
      ensures !ok ==>
                && k < |old(idleConns)| && sent == old(sent)
                && Fields() == old(Fields()).(
                                 idle := old(idleConns)[k + 1..], shut := old(shut) + Ids(old(idleConns)[..k]))
      ensures ok ==> forall p :: Waiting(p) in old(connReqs) ==> p in sent && sent[p] == GetClosed
      ensures ok ==> forall p :: Waiting(p) !in old(connReqs) && p in old(sent) ==> p in sent && sent[p] == old(sent)[p]
    {
      closed := true;
      ok, k := CloseIdle();
      if ok {
        RefuseWaiters();
        openingConns := 0;
      }
    }

    /** `release`, from call to return with no other caller in between. */
    method Release(p: nat) returns (ok: bool)
      requires Valid() && p < |st.pcs| && st.pcs[p].Ready?
      modifies this`idleConns, this`openingConns, this`connReqs, this`closed, this`shut, this`sent, this`st
      ensures Valid() && Leads(Machine(), old(st), st) && closed
      ensures ReleaseDoes(ok, old(Fields()), Fields())
      ensures st.pcs == if ok then Refuse(old(st).pcs, old(connReqs)) else old(st).pcs
    {
      ghost var k;
      ok, k := ReleaseAll();
      if ok {
        RefuseDelivers(st.pcs, st.reqs, old(sent), sent);
      }
      DidRelease(p, ok, k);
    }

    // ---------------------------------------------------------------- new

    constructor Empty(config: Config, ghost callers: nat)
      ensures cfg == config && idleConns == [] && openingConns == 0 && !closed && connReqs == [] && made == 0
      ensures shut == [] && sent == map[] && |st.pcs| == callers
    {
      cfg := config;
      idleConns, openingConns, closed, connReqs, clock, made, shut, sent := [], 0, false, [], 0, 0, [], map[];
      st := State([], 0, false, [], Unlocked(), seq(callers, _ => Ready), 0, [], [], [], 0);
    }

    /** `Pool::new`: the initial connections, or none of the pool if the factory fails on one. */
    static method New(config: Config, ghost callers: nat) returns (r: Option<Pool>)
      ensures r.Some? ==>
                && fresh(r.value) && r.value.cfg == config && r.value.Valid() && Init(config, r.value.st)
                && |r.value.st.pcs| == callers
    {
      var pool := new Pool.Empty(config, callers);
      ghost var births: seq<nat> := [];
      for i := 0 to config.initialCap
        invariant fresh(pool) && pool.cfg == config && !pool.closed && pool.connReqs == [] && pool.shut == []
        invariant |pool.st.pcs| == callers
        invariant |pool.idleConns| == |births| == pool.openingConns == pool.made == i
        invariant forall j :: 0 <= j < i ==>
                    pool.idleConns[j].conn == Conn(j, births[j]) && pool.idleConns[j].since <= births[j] <= pool.clock
        invariant Sorted(pool.idleConns)
      {
        var factoryOk := pool.Foreign();
        if !factoryOk {
          return None;
        }
        var since := pool.Now();
        var created := pool.Now();
        pool.idleConns := pool.idleConns + [IdleConn(Conn(pool.made, created), since)];
        pool.openingConns, pool.made := pool.openingConns + 1, pool.made + 1;
        births := births + [created];
      }
      pool.st := State(pool.idleConns, pool.openingConns, false, [], Unlocked(), seq(callers, _ => Ready),
                       pool.clock, births, [], [], 0);
      LeadsRefl(Next(config, AllCalls), pool.st);
      return Some(pool);
    }
  }
}
