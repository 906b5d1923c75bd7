/** Every received message is accounted for, over all connections and reconnects. */
module DeliveryAccounting {
  import opened Tally
  import opened Transitions
  import opened Delivery

  ghost predicate TotalsInv(s: State) {
    && s.received == Sum(s.readers, ReceivedBy())
    && s.received == |s.tasks| + Sum(s.readers, IsWaiting())
    && s.finished == Sum(s.tasks, With(Finished))
    && s.requeued == Sum(s.tasks, With(Requeued))
  }

  lemma ReaderTotals(cfg: Config, s: State, m: Move)
    requires TotalsInv(s) && Step(cfg, s, m).Some? && (m.Begin? || m.Drop? || m.Receive?)
    ensures TotalsInv(Step(cfg, s, m).value)
  {
    var s' := Step(cfg, s, m).value;
    SumUpdate(s.readers, ReceivedBy(), m.r, s'.readers[m.r]);
    SumUpdate(s.readers, IsWaiting(), m.r, s'.readers[m.r]);
  }

  lemma SpawnTotals(cfg: Config, s: State, r: nat)
    requires TotalsInv(s) && Step(cfg, s, Spawn(r)).Some?
    ensures TotalsInv(Step(cfg, s, Spawn(r)).value)
  {
    var s' := Step(cfg, s, Spawn(r)).value;
    SumUpdate(s.readers, ReceivedBy(), r, s'.readers[r]);
    SumUpdate(s.readers, IsWaiting(), r, s'.readers[r]);
    SumAppend(s.tasks, With(Finished), NewTask(r, s.readers[r].epoch));
    SumAppend(s.tasks, With(Requeued), NewTask(r, s.readers[r].epoch));
  }

  /** Only counting settles a message as finished or requeued, and nothing unsettles one. */
  lemma Settles(cfg: Config, t: Task, e: Epoch, a: Action)
    requires TaskStep(cfg, t, e, a).Some?
    ensures var t' := TaskStep(cfg, t, e, a).value.0;
            && With(Finished)(t') == With(Finished)(t) + Bit(a.Count? && t.pc == Counting(true))
            && With(Requeued)(t') == With(Requeued)(t) + Bit(a.Count? && t.pc == Counting(false))
  {
  }

  lemma ActTotals(cfg: Config, s: State, t: nat, a: Action)
    requires TotalsInv(s) && Step(cfg, s, Act(t, a)).Some?
    ensures TotalsInv(Step(cfg, s, Act(t, a)).value)
  {
    var was := s.tasks[t];
    var (task, epoch) := TaskStep(cfg, was, s.epochs[was.epoch], a).value;
    Settles(cfg, was, s.epochs[was.epoch], a);
    var s' := Acted(s, t, a, task, epoch);
    SumUpdate(s.tasks, With(Finished), t, task);
    SumUpdate(s.tasks, With(Requeued), t, task);
    SumUpdate(s.readers, ReceivedBy(), was.reader, s'.readers[was.reader]);
    SumUpdate(s.readers, IsWaiting(), was.reader, s'.readers[was.reader]);
  }

  lemma TotalsStep(cfg: Config, s: State, m: Move)
    requires TotalsInv(s) && Step(cfg, s, m).Some?
    ensures TotalsInv(Step(cfg, s, m).value)
  {
    match m
    case Connect(addr) =>
      SumAppend(s.readers, ReceivedBy(), Reader(addr, Down, 0, cfg.Permits(), 0));
      SumAppend(s.readers, IsWaiting(), Reader(addr, Down, 0, cfg.Permits(), 0));
    case Spawn(r) => SpawnTotals(cfg, s, r);
    case Act(t, a) => ActTotals(cfg, s, t, a);
    case _ => ReaderTotals(cfg, s, m);
  }

  lemma TotalsReachable(cfg: Config, s: State)
    requires Reachable(cfg, s)
    ensures TotalsInv(s)
  {
    forall t, m | TotalsInv(t) && Next(cfg)(t, m).Some?
      ensures TotalsInv(Next(cfg)(t, m).value)
    {
      TotalsStep(cfg, t, m);
    }
    InvariantHolds(Next(cfg), (t: State) => TotalsInv(t), Idle, s);
  }

  lemma OneOutcome(t: Task)
    ensures 1 == With(Finished)(t) + With(Requeued)(t) + With(Unanswered)(t)
                 + With(SendFailed)(t) + With(Panicked)(t) + Unsettled()(t)
  {
    match OutcomeOf(t)
    case None =>
    case Some(Finished) =>
    case Some(Requeued) =>
    case Some(Unanswered) =>
    case Some(SendFailed) =>
    case Some(Panicked) =>
  }

  lemma {:induction false} EveryTaskOnce(ts: seq<Task>)
    ensures |ts| == Sum(ts, With(Finished)) + Sum(ts, With(Requeued)) + Sum(ts, With(Unanswered))
                    + Sum(ts, With(SendFailed)) + Sum(ts, With(Panicked)) + Sum(ts, Unsettled())
  {
    if ts != [] {
      EveryTaskOnce(ts[..|ts| - 1]);
      OneOutcome(ts[|ts| - 1]);
    }
  }

  /** At every moment: received messages are those counted finished, those counted requeued, those whose
      handler left them unanswered, failed answers, panics, messages still with their task, and messages
      that wait for a permit. */
  lemma Accounting(cfg: Config, s: State)
    requires Reachable(cfg, s)
    ensures s.received ==
              s.finished + s.requeued + Sum(s.tasks, With(Unanswered)) + Sum(s.tasks, With(SendFailed))
              + Sum(s.tasks, With(Panicked)) + Sum(s.tasks, Unsettled()) + Sum(s.readers, IsWaiting())
    ensures s.received == Sum(s.readers, ReceivedBy())
  {
    TotalsReachable(cfg, s);
    EveryTaskOnce(s.tasks);
  }
}
