/** Permits and RDY credit under every interleaving of the tasks. */
module DeliveryCredit {
  import opened Tally
  import opened Numbers
  import opened Transitions
  import opened Delivery

  // ---------------------------------------------------------------- the shape of a state

  predicate TaskBelongs(s: State, t: Task) {
    t.epoch < |s.epochs| && t.reader < |s.readers| && s.epochs[t.epoch].reader == t.reader
  }

  ghost predicate ShapeInv(s: State) {
    && (forall i: nat :: i < |s.tasks| ==> TaskBelongs(s, s.tasks[i]))
    && (forall e: nat :: e < |s.epochs| ==> s.epochs[e].reader < |s.readers|)
    && (forall r: nat :: r < |s.readers| && !s.readers[r].phase.Down? ==>
          s.readers[r].epoch < |s.epochs| && s.epochs[s.readers[r].epoch].reader == r)
  }

  lemma ReaderShape(cfg: Config, s: State, m: Move)
    requires ShapeInv(s) && Step(cfg, s, m).Some? && !m.Act? && !m.Spawn?
    ensures ShapeInv(Step(cfg, s, m).value)
  {
    var s' := Step(cfg, s, m).value;
    forall i: nat | i < |s'.tasks|
      ensures TaskBelongs(s', s'.tasks[i])
    {
      assert TaskBelongs(s, s.tasks[i]);
    }
  }

  lemma SpawnShape(cfg: Config, s: State, r: nat)
    requires ShapeInv(s) && Step(cfg, s, Spawn(r)).Some?
    ensures ShapeInv(Step(cfg, s, Spawn(r)).value)
  {
    var s' := Step(cfg, s, Spawn(r)).value;
    forall i: nat | i < |s'.tasks|
      ensures TaskBelongs(s', s'.tasks[i])
    {
      assert i < |s.tasks| ==> TaskBelongs(s, s.tasks[i]);
    }
  }

  /** A task keeps its reader and its epoch, and never comes back. */
  lemma TaskKeeps(cfg: Config, t: Task, e: Epoch, a: Action)
    requires TaskStep(cfg, t, e, a).Some?
    ensures var (t', e') := TaskStep(cfg, t, e, a).value;
            t'.reader == t.reader && t'.epoch == t.epoch && e'.reader == e.reader && (t'.Live() ==> t.Live())
  {
  }

  lemma ActShape(cfg: Config, s: State, t: nat, a: Action)
    requires ShapeInv(s) && Step(cfg, s, Act(t, a)).Some?
    ensures ShapeInv(Step(cfg, s, Act(t, a)).value)
  {
    var was := s.tasks[t];
    var (task, epoch) := TaskStep(cfg, was, s.epochs[was.epoch], a).value;
    TaskKeeps(cfg, was, s.epochs[was.epoch], a);
    var s' := Acted(s, t, a, task, epoch);
    forall i: nat | i < |s'.tasks|
      ensures TaskBelongs(s', s'.tasks[i])
    {
      assert TaskBelongs(s, s.tasks[i]);
    }
  }

  lemma ShapeStep(cfg: Config, s: State, m: Move)
    requires ShapeInv(s) && Step(cfg, s, m).Some?
    ensures ShapeInv(Step(cfg, s, m).value)
  {
    match m
    case Act(t, a) => ActShape(cfg, s, t, a);
    case Spawn(r) => SpawnShape(cfg, s, r);
    case _ => ReaderShape(cfg, s, m);
  }

  // ---------------------------------------------------------------- permits

  /** The permits of a reader are free or with its live tasks; every message it took went to a task or
      waits for a permit. */
  ghost predicate PermitInv(cfg: Config, s: State, r: nat)
    requires r < |s.readers|
  {
    && s.readers[r].permits + Sum(s.tasks, LiveAt(r)) == cfg.Permits()
    && s.readers[r].received == Sum(s.tasks, LiveAt(r)) + Sum(s.tasks, EndedAt(r)) + Bit(s.readers[r].phase.Waiting?)
  }

  ghost predicate PermitsInv(cfg: Config, s: State) {
    forall r: nat :: r < |s.readers| ==> PermitInv(cfg, s, r)
  }

  lemma NewReader(cfg: Config, s: State, addr: nat)
    requires ShapeInv(s) && PermitsInv(cfg, s) && Step(cfg, s, Connect(addr)).Some?
    ensures PermitsInv(cfg, Step(cfg, s, Connect(addr)).value)
  {
    var s' := Step(cfg, s, Connect(addr)).value;
    SumZero(s.tasks, LiveAt(|s.readers|));
    SumZero(s.tasks, EndedAt(|s.readers|));
    forall r: nat | r < |s'.readers|
      ensures PermitInv(cfg, s', r)
    {
      if r < |s.readers| {
        assert PermitInv(cfg, s, r);
      }
    }
  }

  lemma ReaderPermits(cfg: Config, s: State, m: Move)
    requires ShapeInv(s) && PermitsInv(cfg, s) && Step(cfg, s, m).Some? && (m.Begin? || m.Drop? || m.Receive?)
    ensures PermitsInv(cfg, Step(cfg, s, m).value)
  {
    var s' := Step(cfg, s, m).value;
    forall r: nat | r < |s'.readers|
      ensures PermitInv(cfg, s', r)
    {
      assert PermitInv(cfg, s, r);
    }
  }

  lemma SpawnPermits(cfg: Config, s: State, r: nat)
    requires PermitsInv(cfg, s) && Step(cfg, s, Spawn(r)).Some?
    ensures PermitsInv(cfg, Step(cfg, s, Spawn(r)).value)
  {
    var s' := Step(cfg, s, Spawn(r)).value;
    forall k: nat | k < |s'.readers|
      ensures PermitInv(cfg, s', k)
    {
      assert PermitInv(cfg, s, k);
      SumAppend(s.tasks, LiveAt(k), NewTask(r, s.readers[r].epoch));
      SumAppend(s.tasks, EndedAt(k), NewTask(r, s.readers[r].epoch));
    }
  }

  lemma ActPermits(cfg: Config, s: State, t: nat, a: Action)
    requires PermitsInv(cfg, s) && Step(cfg, s, Act(t, a)).Some?
    ensures PermitsInv(cfg, Step(cfg, s, Act(t, a)).value)
  {
    var was := s.tasks[t];
    var (task, epoch) := TaskStep(cfg, was, s.epochs[was.epoch], a).value;
    TaskKeeps(cfg, was, s.epochs[was.epoch], a);
    var s' := Acted(s, t, a, task, epoch);
    forall r: nat | r < |s'.readers|
      ensures PermitInv(cfg, s', r)
    {
      assert PermitInv(cfg, s, r);
      SumUpdate(s.tasks, LiveAt(r), t, task);
      SumUpdate(s.tasks, EndedAt(r), t, task);
    }
  }

  lemma PermitsStep(cfg: Config, s: State, m: Move)
    requires ShapeInv(s) && PermitsInv(cfg, s) && Step(cfg, s, m).Some?
    ensures PermitsInv(cfg, Step(cfg, s, m).value)
  {
    match m
    case Connect(addr) => NewReader(cfg, s, addr);
    case Spawn(r) => SpawnPermits(cfg, s, r);
    case Act(t, a) => ActPermits(cfg, s, t, a);
    case _ => ReaderPermits(cfg, s, m);
  }

  // ---------------------------------------------------------------- credit

  /** The credit never exceeds the limit; what it lacks to more than half is owed by tasks on their way to
      a refill, or was lost with a refill that failed. */
  ghost predicate CreditInv(cfg: Config, s: State, e: nat)
    requires e < |s.epochs|
  {
    && s.epochs[e].rdy <= cfg.maxInFlight
    && s.epochs[e].rdy + Sum(s.tasks, PendingAt(e)) + s.epochs[e].failed >= cfg.maxInFlight / 2 + 1
  }

  ghost predicate CreditsInv(cfg: Config, s: State) {
    cfg.maxInFlight >= 1 ==> forall e: nat :: e < |s.epochs| ==> CreditInv(cfg, s, e)
  }

  lemma NewEpochHasNone(s: State)
    requires ShapeInv(s)
    ensures Sum(s.tasks, PendingAt(|s.epochs|)) == 0
  {
    SumZero(s.tasks, PendingAt(|s.epochs|));
  }

  lemma ReaderCredit(cfg: Config, s: State, m: Move)
    requires ShapeInv(s) && CreditsInv(cfg, s) && Step(cfg, s, m).Some? && !m.Act?
    ensures CreditsInv(cfg, Step(cfg, s, m).value)
  {
    var s' := Step(cfg, s, m).value;
    NewEpochHasNone(s);
    forall e: nat | cfg.maxInFlight >= 1 && e < |s'.epochs|
      ensures CreditInv(cfg, s', e)
    {
      if m.Spawn? {
        SumAppend(s.tasks, PendingAt(e), NewTask(m.r, s.readers[m.r].epoch));
      }
      if e < |s.epochs| {
        assert CreditInv(cfg, s, e);
      }
    }
  }

  /** One step of a task, on the credit of its epoch. */
  lemma TaskCredit(cfg: Config, t: Task, e: Epoch, a: Action)
    requires TaskStep(cfg, t, e, a).Some? && cfg.maxInFlight >= 1 && e.rdy <= cfg.maxInFlight
    ensures var (t', e') := TaskStep(cfg, t, e, a).value;
            && e'.rdy <= cfg.maxInFlight
            && (e.rdy + Bit(t.Pending()) + e.failed <= e'.rdy + Bit(t'.Pending()) + e'.failed
                || e'.rdy >= cfg.maxInFlight / 2 + 1)
            && e'.failed >= e.failed
  {
  }

  lemma ActCredit(cfg: Config, s: State, t: nat, a: Action)
    requires CreditsInv(cfg, s) && Step(cfg, s, Act(t, a)).Some?
    ensures CreditsInv(cfg, Step(cfg, s, Act(t, a)).value)
  {
    var was := s.tasks[t];
    var (task, epoch) := TaskStep(cfg, was, s.epochs[was.epoch], a).value;
    TaskKeeps(cfg, was, s.epochs[was.epoch], a);
    var s' := Acted(s, t, a, task, epoch);
    forall e: nat | cfg.maxInFlight >= 1 && e < |s'.epochs|
      ensures CreditInv(cfg, s', e)
    {
      assert CreditInv(cfg, s, e);
      SumUpdate(s.tasks, PendingAt(e), t, task);
      if e == was.epoch {
        TaskCredit(cfg, was, s.epochs[e], a);
      }
    }
  }

  // ---------------------------------------------------------------- one permit

  /** How far the credit falls before it is filled up again: half the limit, rounded up. */
  function Cycle(cfg: Config): int {
    (cfg.maxInFlight + 1) / 2
  }

  predicate AtRest(cfg: Config, e: Epoch)
    requires cfg.maxInFlight >= 1
  {
    e.rdy == cfg.maxInFlight - e.steps % Cycle(cfg) && e.sends == 1 + e.steps / Cycle(cfg)
  }

  predicate MidRefill(cfg: Config, t: Task, e: Epoch)
    requires cfg.maxInFlight >= 1
  {
    && e.steps > 0 && e.steps % Cycle(cfg) == 0 && e.rdy == cfg.maxInFlight - Cycle(cfg)
    && e.sends == e.steps / Cycle(cfg) + Bit(t.pc.Storing?)
  }

  /** With one permit and no failed refill the credit is a function of the number of decrements. */
  ghost predicate ClosedForm(cfg: Config, s: State, e: nat)
    requires e < |s.epochs| && cfg.maxInFlight >= 1
  {
    s.epochs[e].failed == 0 ==>
      && (forall i: nat :: i < |s.tasks| && s.tasks[i].epoch == e && s.tasks[i].Pending() ==>
            MidRefill(cfg, s.tasks[i], s.epochs[e]))
      && (Sum(s.tasks, PendingAt(e)) == 0 ==> AtRest(cfg, s.epochs[e]))
  }

  ghost predicate ClosedForms(cfg: Config, s: State) {
    cfg.maxInFlight >= 1 && cfg.Permits() == 1 ==> forall e: nat :: e < |s.epochs| ==> ClosedForm(cfg, s, e)
  }

  /** With one permit, a live task is the only live one of its reader. */
  lemma OnlyLive(cfg: Config, s: State, i: nat, j: nat)
    requires ShapeInv(s) && PermitsInv(cfg, s) && cfg.Permits() == 1
    requires i < |s.tasks| && j < |s.tasks| && i != j
    requires s.tasks[i].Live() && s.tasks[j].reader == s.tasks[i].reader
    ensures !s.tasks[j].Live()
  {
    var r := s.tasks[i].reader;
    assert PermitInv(cfg, s, r);
    if i < j {
      SumAtLeastTwo(s.tasks, LiveAt(r), i, j);
    } else {
      SumAtLeastTwo(s.tasks, LiveAt(r), j, i);
    }
  }

  lemma OthersRest(cfg: Config, s: State, i: nat)
    requires ShapeInv(s) && PermitsInv(cfg, s) && cfg.Permits() == 1
    requires i < |s.tasks| && s.tasks[i].Live()
    ensures forall j: nat :: j < |s.tasks| && j != i && s.tasks[j].epoch == s.tasks[i].epoch ==> !s.tasks[j].Pending()
    ensures Sum(s.tasks, PendingAt(s.tasks[i].epoch)) == Bit(s.tasks[i].Pending())
  {
    var e := s.tasks[i].epoch;
    forall j: nat | j < |s.tasks| && j != i && s.tasks[j].epoch == e
      ensures !s.tasks[j].Pending()
    {
      OnlyLive(cfg, s, i, j);
    }
    var resting := s.tasks[i].(pc := Ended(Finished));
    SumUpdate(s.tasks, PendingAt(e), i, resting);
    SumZero(s.tasks[i := resting], PendingAt(e));
  }

  /** One step of the only live task of a reader. */
  lemma TaskClosedForm(cfg: Config, t: Task, e: Epoch, a: Action)
    requires TaskStep(cfg, t, e, a).Some? && cfg.maxInFlight >= 1 && t.Live()
    requires e.failed == 0 && if t.Pending() then MidRefill(cfg, t, e) else AtRest(cfg, e)
    ensures var (t', e') := TaskStep(cfg, t, e, a).value;
            e'.failed == 0 ==> if t'.Pending() then MidRefill(cfg, t', e') else AtRest(cfg, e')
  {
    if a.Decrement? {
      ModStep(e.steps, Cycle(cfg));
    }
  }

  lemma EndedKeeps(cfg: Config, t: Task, e: Epoch, a: Action)
    requires TaskStep(cfg, t, e, a).Some? && !t.Live()
    ensures TaskStep(cfg, t, e, a).value.0.pc == t.pc && TaskStep(cfg, t, e, a).value.1 == e
  {
  }

  lemma FailedKeeps(cfg: Config, t: Task, e: Epoch, a: Action)
    requires TaskStep(cfg, t, e, a).Some?
    ensures e.failed <= TaskStep(cfg, t, e, a).value.1.failed
  {
  }

  lemma ActClosedForm(cfg: Config, s: State, t: nat, a: Action, e: nat)
    requires ShapeInv(s) && PermitsInv(cfg, s) && Step(cfg, s, Act(t, a)).Some?
    requires cfg.maxInFlight >= 1 && cfg.Permits() == 1 && e < |s.epochs| && ClosedForm(cfg, s, e)
    ensures ClosedForm(cfg, Step(cfg, s, Act(t, a)).value, e)
  {
    var was := s.tasks[t];
    var (task, epoch) := TaskStep(cfg, was, s.epochs[was.epoch], a).value;
    TaskKeeps(cfg, was, s.epochs[was.epoch], a);
    FailedKeeps(cfg, was, s.epochs[was.epoch], a);
    SumUpdate(s.tasks, PendingAt(e), t, task);
    if was.epoch == e {
      if was.Live() {
        OthersRest(cfg, s, t);
        if s.epochs[e].failed == 0 {
          TaskClosedForm(cfg, was, s.epochs[e], a);
        }
      } else {
        EndedKeeps(cfg, was, s.epochs[e], a);
      }
    }
  }

  lemma ReaderClosedForm(cfg: Config, s: State, m: Move)
    requires ShapeInv(s) && ClosedForms(cfg, s) && Step(cfg, s, m).Some? && !m.Act?
    ensures ClosedForms(cfg, Step(cfg, s, m).value)
  {
    var s' := Step(cfg, s, m).value;
    forall e: nat | cfg.maxInFlight >= 1 && cfg.Permits() == 1 && e < |s'.epochs|
      ensures ClosedForm(cfg, s', e)
    {
      if m.Spawn? {
        SumAppend(s.tasks, PendingAt(e), NewTask(m.r, s.readers[m.r].epoch));
      }
      if e < |s.epochs| {
        assert ClosedForm(cfg, s, e);
      } else {
        assert 0 % Cycle(cfg) == 0 && 0 / Cycle(cfg) == 0;
      }
    }
  }

  // ---------------------------------------------------------------- all together

  ghost predicate Inv(cfg: Config, s: State) {
    ShapeInv(s) && PermitsInv(cfg, s) && CreditsInv(cfg, s) && ClosedForms(cfg, s)
  }

  lemma InvStep(cfg: Config, s: State, m: Move)
    requires Inv(cfg, s) && Step(cfg, s, m).Some?
    ensures Inv(cfg, Step(cfg, s, m).value)
  {
    ShapeStep(cfg, s, m);
    PermitsStep(cfg, s, m);
    if m.Act? {
      ActCredit(cfg, s, m.t, m.a);
      forall e: nat | cfg.maxInFlight >= 1 && cfg.Permits() == 1 && e < |s.epochs|
        ensures ClosedForm(cfg, Step(cfg, s, m).value, e)
      {
        ActClosedForm(cfg, s, m.t, m.a, e);
      }
    } else {
      ReaderCredit(cfg, s, m);
      ReaderClosedForm(cfg, s, m);
    }
  }

  lemma InvReachable(cfg: Config, s: State)
    requires Reachable(cfg, s)
    ensures Inv(cfg, s)
  {
    forall t, m | Inv(cfg, t) && Next(cfg)(t, m).Some?
      ensures Inv(cfg, Next(cfg)(t, m).value)
    {
      InvStep(cfg, t, m);
    }
    InvariantHolds(Next(cfg), (t: State) => Inv(cfg, t), Idle, s);
  }

  // ---------------------------------------------------------------- theorems

  lemma PendingIsLive(s: State, e: nat)
    requires ShapeInv(s) && e < |s.epochs|
    ensures Sum(s.tasks, PendingAt(e)) <= Sum(s.tasks, LiveAt(s.epochs[e].reader))
  {
    SumMonotone(s.tasks, PendingAt(e), LiveAt(s.epochs[e].reader));
  }

  /** Whatever the interleaving: the credit of an epoch stays at most the limit and above half of it, but
      for one unit per refill under way and one per refill that failed; and no more refills are under way
      than there are permits. */
  lemma Credit(cfg: Config, s: State, e: nat)
    requires Reachable(cfg, s) && e < |s.epochs| && cfg.maxInFlight >= 1
    ensures s.epochs[e].rdy <= cfg.maxInFlight
    ensures s.epochs[e].rdy + Sum(s.tasks, PendingAt(e)) + s.epochs[e].failed > cfg.maxInFlight / 2
    ensures s.epochs[e].rdy > cfg.maxInFlight / 2 - cfg.Permits() - s.epochs[e].failed
  {
    InvReachable(cfg, s);
    assert CreditInv(cfg, s, e);
    PendingIsLive(s, e);
    assert PermitInv(cfg, s, s.epochs[e].reader);
  }

  /** So with every refill done and none failed, more than half the credit is left. */
  lemma MoreThanHalf(cfg: Config, s: State, e: nat)
    requires Reachable(cfg, s) && e < |s.epochs| && cfg.maxInFlight >= 1
    requires s.epochs[e].failed == 0
    requires forall i: nat :: i < |s.tasks| && s.tasks[i].epoch == e ==> !s.tasks[i].Pending()
    ensures s.epochs[e].rdy > cfg.maxInFlight / 2
  {
    SumZero(s.tasks, PendingAt(e));
    Credit(cfg, s, e);
  }

  /** With one permit, after n decrements and no failed refill, the credit is M - n mod ceil(M/2) and
      1 + n / ceil(M/2) RDY commands were sent. */
  lemma OnePermit(cfg: Config, s: State, e: nat)
    requires Reachable(cfg, s) && e < |s.epochs| && cfg.maxInFlight >= 1 && cfg.concurrentHandlers <= 1
    requires s.epochs[e].failed == 0
    requires forall i: nat :: i < |s.tasks| && s.tasks[i].epoch == e ==> !s.tasks[i].Pending()
    ensures s.epochs[e].rdy == cfg.maxInFlight - s.epochs[e].steps % ((cfg.maxInFlight + 1) / 2)
    ensures s.epochs[e].sends == 1 + s.epochs[e].steps / ((cfg.maxInFlight + 1) / 2)
  {
    SumZero(s.tasks, PendingAt(e));
    InvReachable(cfg, s);
    assert ClosedForm(cfg, s, e);
  }

  /** No reader has more live tasks than permits, and it has taken at most one message more from its
      connection than its ended and live tasks account for. */
  lemma Backpressure(cfg: Config, s: State, r: nat)
    requires Reachable(cfg, s) && r < |s.readers|
    ensures Sum(s.tasks, LiveAt(r)) <= cfg.Permits()
    ensures s.readers[r].received ==
              Sum(s.tasks, LiveAt(r)) + Sum(s.tasks, EndedAt(r)) + Bit(s.readers[r].phase.Waiting?)
    ensures s.readers[r].received - Sum(s.tasks, EndedAt(r)) <= cfg.Permits() + 1
  {
    InvReachable(cfg, s);
    assert PermitInv(cfg, s, r);
  }
}
