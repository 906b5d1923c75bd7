/** Live tasks and unfinished messages counted by address.  Each connection has its own permits, and an
    address that is disconnected and connected again has two connections while the first still drains. */
module DeliveryAddresses {
  import opened Tally
  import opened Transitions
  import opened Delivery
  import opened DeliveryAnswers
  import opened DeliveryCredit

  function LiveFor(s: State, addr: nat): Task -> nat {
    (t: Task) => Bit(t.reader < |s.readers| && s.readers[t.reader].addr == addr && t.Live())
  }

  /** No address ever has more live tasks than its handlers are configured for. */
  ghost predicate BoundedByAddress(cfg: Config) {
    forall s, addr: nat :: Reachable(cfg, s) ==> Sum(s.tasks, LiveFor(s, addr)) <= cfg.Permits()
  }

  function EndedFor(s: State, addr: nat): Task -> nat {
    (t: Task) => Bit(t.reader < |s.readers| && s.readers[t.reader].addr == addr && !t.Live())
  }

  function ReceivedFor(addr: nat): Reader -> nat {
    (r: Reader) => if r.addr == addr then r.received else 0
  }

  /** And no more than one message of an address is received ahead of these. */
  ghost predicate OneAheadByAddress(cfg: Config) {
    forall s, addr: nat :: Reachable(cfg, s) ==>
      Sum(s.readers, ReceivedFor(addr)) <= Sum(s.tasks, EndedFor(s, addr)) + cfg.Permits() + 1
  }

  // ---------------------------------------------------------------- connected once

  ghost predicate OneEach(s: State) {
    forall q, r :: 0 <= q < r < |s.readers| ==> s.readers[q].addr != s.readers[r].addr
  }

  lemma OneEachStep(cfg: Config, s: State, m: Move)
    requires OneEach(s) && !cfg.again && Step(cfg, s, m).Some?
    ensures OneEach(Step(cfg, s, m).value)
  {
    var s' := Step(cfg, s, m).value;
    if !m.Connect? {
      assert |s'.readers| == |s.readers|;
      assert forall r :: 0 <= r < |s.readers| ==> s'.readers[r].addr == s.readers[r].addr;
    }
  }

  lemma OneEachReachable(cfg: Config, s: State)
    requires Reachable(cfg, s) && !cfg.again
    ensures OneEach(s)
  {
    forall t, m | OneEach(t) && Next(cfg)(t, m).Some?
      ensures OneEach(Next(cfg)(t, m).value)
    {
      OneEachStep(cfg, t, m);
    }
    InvariantHolds(Next(cfg), (t: State) => OneEach(t), Idle, s);
  }

  lemma ReceivedOnce(s: State, r: nat)
    requires OneEach(s) && r < |s.readers|
    ensures Sum(s.readers, ReceivedFor(s.readers[r].addr)) == s.readers[r].received
  {
    var addr, silent := s.readers[r].addr, s.readers[r].(received := 0);
    SumUpdate(s.readers, ReceivedFor(addr), r, silent);
    SumZero(s.readers[r := silent], ReceivedFor(addr));
  }

  lemma Bounded(cfg: Config, s: State, addr: nat)
    requires Reachable(cfg, s) && !cfg.again
    ensures Sum(s.tasks, LiveFor(s, addr)) <= cfg.Permits()
    ensures Sum(s.readers, ReceivedFor(addr)) <= Sum(s.tasks, EndedFor(s, addr)) + cfg.Permits() + 1
  {
    if r: nat :| r < |s.readers| && s.readers[r].addr == addr {
      OneEachReachable(cfg, s);
      ReceivedOnce(s, r);
      InvReachable(cfg, s);
      SumMonotone(s.tasks, LiveFor(s, addr), LiveAt(r));
      SumMonotone(s.tasks, EndedAt(r), EndedFor(s, addr));
      Backpressure(cfg, s, r);
    } else {
      SumZero(s.tasks, LiveFor(s, addr));
      SumZero(s.readers, ReceivedFor(addr));
    }
  }

  // ---------------------------------------------------------------- connected twice

  /** n messages are received and put into tasks. */
  function Taken(s: State, r: nat, n: nat): State
    requires r < |s.readers| && n <= s.readers[r].permits
  {
    var reader := s.readers[r];
    s.(readers := s.readers[r := reader.(received := reader.received + n, permits := reader.permits - n)],
       tasks := s.tasks + NewTasks(r, reader.epoch, n), received := s.received + n)
  }

  function NewTasks(r: nat, epoch: nat, n: nat): seq<Task> {
    seq(n, _ => NewTask(r, epoch))
  }

  lemma TakesOne(cfg: Config, s: State, r: nat)
    requires r < |s.readers| && s.readers[r].phase.Reading? && s.readers[r].permits > 0
    ensures Leads(Next(cfg), s, Taken(s, r, 1))
  {
    var reader := s.readers[r];
    var waiting := reader.(phase := Waiting, received := reader.received + 1);
    var s1 := s.(readers := s.readers[r := waiting], received := s.received + 1);
    OneMove(cfg, s, Receive(r), s1);
    var back := waiting.(phase := Reading, permits := reader.permits - 1);
    assert s1.readers[r := back] == s.readers[r := back];
    assert NewTasks(r, reader.epoch, 1) == [NewTask(r, reader.epoch)];
    OneMove(cfg, s1, Spawn(r), Taken(s, r, 1));
    LeadsTrans(Next(cfg), s, s1, Taken(s, r, 1));
  }

  lemma TakenOneMore(s: State, r: nat, n: nat)
    requires r < |s.readers| && 0 < n <= s.readers[r].permits
    ensures Taken(Taken(s, r, n - 1), r, 1) == Taken(s, r, n)
  {
    var e := s.readers[r].epoch;
    assert NewTasks(r, e, n - 1) + NewTasks(r, e, 1) == NewTasks(r, e, n);
    assert Taken(Taken(s, r, n - 1), r, 1).readers == Taken(s, r, n).readers;
  }

  lemma {:induction false} Takes(cfg: Config, s: State, r: nat, n: nat)
    requires r < |s.readers| && s.readers[r].phase.Reading? && n <= s.readers[r].permits
    ensures Leads(Next(cfg), s, Taken(s, r, n))
  {
    if n == 0 {
      LeadsRefl(Next(cfg), s);
      assert Taken(s, r, 0).readers == s.readers && Taken(s, r, 0).tasks == s.tasks;
    } else {
      Takes(cfg, s, r, n - 1);
      TakesOne(cfg, Taken(s, r, n - 1), r);
      TakenOneMore(s, r, n);
      LeadsTrans(Next(cfg), s, Taken(s, r, n - 1), Taken(s, r, n));
    }
  }

  /** Address 0 is connected twice, and the first connection has k live tasks. */
  function Twice(cfg: Config, k: nat): State
    requires k <= cfg.Permits()
  {
    State([Reader(0, Reading, 0, cfg.Permits() - k, k), Reader(0, Reading, 1, cfg.Permits(), 0)],
          [Epoch(0, cfg.maxInFlight, 1, 0, 0), Epoch(1, cfg.maxInFlight, 1, 0, 0)], NewTasks(0, 0, k), k, 0, 0)
  }

  lemma TwiceStart(cfg: Config)
    requires cfg.again
    ensures Reachable(cfg, Twice(cfg, 0))
  {
    Open(cfg);
    var s := Opened(cfg, Reading, 0);
    var s1 := s.(readers := s.readers + [Reader(0, Down, 0, cfg.Permits(), 0)]);
    Later(cfg, s, Connect(0), s1);
    assert s1.readers[1 := Reader(0, Reading, 1, cfg.Permits(), 0)] == Twice(cfg, 0).readers;
    assert s1.epochs + [Epoch(1, cfg.maxInFlight, 1, 0, 0)] == Twice(cfg, 0).epochs;
    assert s1.tasks == NewTasks(0, 0, 0);
    Later(cfg, s1, Begin(1), Twice(cfg, 0));
  }

  lemma TwiceIsReachable(cfg: Config, k: nat)
    requires cfg.again && k <= cfg.Permits()
    ensures Reachable(cfg, Twice(cfg, k))
  {
    TwiceStart(cfg);
    Takes(cfg, Twice(cfg, 0), 0, k);
    assert NewTasks(0, 0, 0) + NewTasks(0, 0, k) == NewTasks(0, 0, k);
    assert Taken(Twice(cfg, 0), 0, k).readers == Twice(cfg, k).readers;
    LeadsTrans(Next(cfg), Idle, Twice(cfg, 0), Twice(cfg, k));
  }

  lemma {:induction false} AllLive(s: State, k: nat)
    requires 0 < |s.readers| && s.readers[0].addr == 0
    ensures Sum(NewTasks(0, 0, k), LiveFor(s, 0)) == k
  {
    if k > 0 {
      assert NewTasks(0, 0, k)[..k - 1] == NewTasks(0, 0, k - 1);
      AllLive(s, k - 1);
    }
  }

  /** The first connection is full and the second takes a message. */
  lemma Exceeded(cfg: Config) returns (s: State)
    requires cfg.again
    ensures Reachable(cfg, s) && s == Taken(Twice(cfg, cfg.Permits()), 1, 1)
    ensures Sum(s.tasks, LiveFor(s, 0)) == cfg.Permits() + 1
  {
    var k := cfg.Permits();
    var s0 := Twice(cfg, k);
    TwiceIsReachable(cfg, k);
    Takes(cfg, s0, 1, 1);
    s := Taken(s0, 1, 1);
    LeadsTrans(Next(cfg), Idle, s0, s);
    AllLive(s, k);
    assert NewTasks(1, 1, 1) == [NewTask(1, 1)];
    SumAppend(s0.tasks, LiveFor(s, 0), NewTask(1, 1));
  }

  /** And the first connection then receives one more message. */
  lemma TwoAhead(cfg: Config) returns (s: State)
    requires cfg.again
    ensures Reachable(cfg, s)
    ensures Sum(s.readers, ReceivedFor(0)) == cfg.Permits() + 2 && Sum(s.tasks, EndedFor(s, 0)) == 0
  {
    var k := cfg.Permits();
    var s0 := Exceeded(cfg);
    var waiting := s0.readers[0].(phase := Waiting, received := k + 1);
    s := s0.(readers := s0.readers[0 := waiting], received := s0.received + 1);
    Later(cfg, s0, Receive(0), s);
    assert s.readers == [waiting] + [s0.readers[1]] && [waiting] == [] + [waiting];
    SumAppend([], ReceivedFor(0), waiting);
    SumAppend([waiting], ReceivedFor(0), s0.readers[1]);
    SumZero(s.tasks, EndedFor(s, 0));
  }

  /** The bounds on handlers and on messages received ahead hold for each address, if and only if addresses
      are connected only once. */
  lemma BoundedByAddressIff(cfg: Config)
    ensures BoundedByAddress(cfg) <==> !cfg.again
    ensures OneAheadByAddress(cfg) <==> !cfg.again
  {
    if cfg.again {
      var s := Exceeded(cfg);
      var s' := TwoAhead(cfg);
      assert !BoundedByAddress(cfg) && !OneAheadByAddress(cfg);
    } else {
      forall s, addr: nat | Reachable(cfg, s)
        ensures Sum(s.tasks, LiveFor(s, addr)) <= cfg.Permits()
        ensures Sum(s.readers, ReceivedFor(addr)) <= Sum(s.tasks, EndedFor(s, addr)) + cfg.Permits() + 1
      {
        Bounded(cfg, s, addr);
      }
    }
  }
}
