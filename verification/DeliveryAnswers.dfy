/** How often a message is answered. */
module DeliveryAnswers {
  import opened Tally
  import opened Transitions
  import opened Delivery

  // ---------------------------------------------------------------- the invariant of a task

  predicate BeforeCheck(t: Task) {
    t.pc.Handling? || t.pc.Returned?
  }

  /** Every attempted answer has a cause: a clone that won the flag, or the automatic answer. */
  predicate CauseInv(cfg: Config, t: Task) {
    && |t.answers| + Bit(t.owed.Some?) + Bit(t.dropped) == Bit(t.responded) + Bit(t.auto)
    && (t.owed.Some? || t.dropped ==> t.responded)
    && (t.owed.Some? ==> !t.dropped)
    && (t.dropped ==> cfg.cancel)
    && (t.auto || t.pc.Answering? ==> cfg.auto)
    && (BeforeCheck(t) || t.pc.Answering? ==> !t.auto)
    && t.disabled != [] && !t.disabled[0]
  }

  /** If clones answer before their handler returns or never, an automatic answer excludes a clone's. */
  predicate ExclusiveInv(cfg: Config, t: Task) {
    !cfg.late ==>
      && (!t.pc.Handling? && t.pc != Ended(Panicked) ==> t.owed.None?)
      && (t.pc.Answering? || t.auto ==> !t.responded)
      && (t.auto ==> t.owed.None? && |t.answers| == 1)
  }

  /** The answer that the counter of a message stands for, or is about to. */
  function Counted(t: Task): Option<Answer> {
    match t.pc
    case Counting(ok) => Some(AnswerTo(ok))
    case _ =>
      match OutcomeOf(t)
      case Some(Finished) => Some(Fin)
      case Some(Requeued) => Some(Req)
      case _ => None
  }

  /** The clone that won the flag has made its attempt. */
  predicate ClaimSent(t: Task) {
    t.claimed.Some? && t.owed.None? && !t.dropped
  }

  /** What was attempted, if it was one answer. */
  predicate ContentInv(t: Task) {
    && (t.responded <==> t.claimed.Some?)
    && (t.owed.Some? ==> t.owed == t.claimed)
    && (t.dropped ==> t.claimed.Some?)
    && (!t.auto && !ClaimSent(t) ==> t.answers == [])
    && (!t.auto && ClaimSent(t) ==> t.answers == [t.claimed.value])
    && (t.auto && !ClaimSent(t) && Counted(t).Some? ==> t.answers == [Counted(t).value])
    && (t.auto && ClaimSent(t) ==> |t.answers| == 2)
  }

  predicate OutcomeInv(cfg: Config, t: Task) {
    && (t.pc.Counting? ==> t.responded || t.auto)
    && (OutcomeOf(t) == Some(Finished) || OutcomeOf(t) == Some(Requeued) ==> t.responded || t.auto)
    && (OutcomeOf(t) == Some(Unanswered) ==> !cfg.auto)
    && (OutcomeOf(t) == Some(Panicked) || OutcomeOf(t) == Some(SendFailed) ==> t.pc.Ended?)
  }

  predicate TaskInv(cfg: Config, t: Task) {
    CauseInv(cfg, t) && ExclusiveInv(cfg, t) && OutcomeInv(cfg, t) && ContentInv(t)
  }

  lemma CauseStep(cfg: Config, t: Task, e: Epoch, a: Action)
    requires CauseInv(cfg, t) && TaskStep(cfg, t, e, a).Some?
    ensures CauseInv(cfg, TaskStep(cfg, t, e, a).value.0)
  {
  }

  lemma ExclusiveStep(cfg: Config, t: Task, e: Epoch, a: Action)
    requires CauseInv(cfg, t) && ExclusiveInv(cfg, t) && TaskStep(cfg, t, e, a).Some?
    ensures ExclusiveInv(cfg, TaskStep(cfg, t, e, a).value.0)
  {
  }

  lemma OutcomeStep(cfg: Config, t: Task, e: Epoch, a: Action)
    requires CauseInv(cfg, t) && OutcomeInv(cfg, t) && TaskStep(cfg, t, e, a).Some?
    ensures OutcomeInv(cfg, TaskStep(cfg, t, e, a).value.0)
  {
  }

  lemma ContentStep(cfg: Config, t: Task, e: Epoch, a: Action)
    requires CauseInv(cfg, t) && ContentInv(t) && TaskStep(cfg, t, e, a).Some?
    ensures ContentInv(TaskStep(cfg, t, e, a).value.0)
  {
  }

  lemma TaskInvStep(cfg: Config, t: Task, e: Epoch, a: Action)
    requires TaskInv(cfg, t) && TaskStep(cfg, t, e, a).Some?
    ensures TaskInv(cfg, TaskStep(cfg, t, e, a).value.0)
  {
    CauseStep(cfg, t, e, a);
    ExclusiveStep(cfg, t, e, a);
    OutcomeStep(cfg, t, e, a);
    ContentStep(cfg, t, e, a);
  }

  predicate AllTaskInv(cfg: Config, s: State) {
    forall i :: 0 <= i < |s.tasks| ==> TaskInv(cfg, s.tasks[i])
  }

  lemma AllTaskInvStep(cfg: Config, s: State, m: Move)
    requires AllTaskInv(cfg, s) && Step(cfg, s, m).Some?
    ensures AllTaskInv(cfg, Step(cfg, s, m).value)
  {
    if m.Act? {
      TaskInvStep(cfg, s.tasks[m.t], s.epochs[s.tasks[m.t].epoch], m.a);
    }
  }

  lemma TaskInvReachable(cfg: Config, s: State)
    requires Reachable(cfg, s)
    ensures AllTaskInv(cfg, s)
  {
    forall t, m | AllTaskInv(cfg, t) && Next(cfg)(t, m).Some?
      ensures AllTaskInv(cfg, Next(cfg)(t, m).value)
    {
      AllTaskInvStep(cfg, t, m);
    }
    InvariantHolds(Next(cfg), (t: State) => AllTaskInv(cfg, t), Idle, s);
  }

  // ---------------------------------------------------------------- at most one, exactly one

  ghost predicate AtMostOnce(cfg: Config) {
    forall s, i :: Reachable(cfg, s) && 0 <= i < |s.tasks| ==> |s.tasks[i].answers| <= 1
  }

  /** When the handler's task comes to its RDY step. */
  ghost predicate ExactlyOnce(cfg: Config) {
    forall s, i :: Reachable(cfg, s) && 0 <= i < |s.tasks| && s.tasks[i].pc.AtRdy? ==>
      |s.tasks[i].answers| == 1 && s.tasks[i].owed.None?
  }

  /** A state with one task that got here with some history. */
  ghost predicate Lone(cfg: Config, t: Task) {
    exists s :: Reachable(cfg, s) && s.tasks == [t] && |s.epochs| == 1 && |s.readers| == 1
      && t.epoch == 0 && t.reader == 0
  }

  function Opened(cfg: Config, phase: Phase, received: nat): State {
    State([Reader(0, phase, 0, cfg.Permits(), received)], [Epoch(0, cfg.maxInFlight, 1, 0, 0)], [], received, 0, 0)
  }

  lemma Open(cfg: Config)
    ensures Reachable(cfg, Opened(cfg, Reading, 0))
  {
    var down := Reader(0, Down, 0, cfg.Permits(), 0);
    var s := State([down], [], [], 0, 0, 0);
    LeadsRefl(Next(cfg), Idle);
    assert Idle.readers + [down] == [down];
    Later(cfg, Idle, Connect(0), s);
    assert s.readers[0 := down.(phase := Reading, epoch := 0)] == Opened(cfg, Reading, 0).readers;
    assert s.epochs + [Epoch(0, cfg.maxInFlight, 1, 0, 0)] == Opened(cfg, Reading, 0).epochs;
    Later(cfg, s, Begin(0), Opened(cfg, Reading, 0));
  }

  lemma LoneStart(cfg: Config)
    ensures Lone(cfg, NewTask(0, 0))
  {
    Open(cfg);
    var s := Opened(cfg, Reading, 0);
    assert s.readers[0 := s.readers[0].(phase := Waiting, received := 1)] == Opened(cfg, Waiting, 1).readers;
    Later(cfg, s, Receive(0), Opened(cfg, Waiting, 1));
    s := Opened(cfg, Waiting, 1);
    var s' := s.(readers := [Reader(0, Reading, 0, cfg.Permits() - 1, 1)], tasks := [NewTask(0, 0)]);
    assert s.readers[0 := s.readers[0].(phase := Reading, permits := cfg.Permits() - 1)] == s'.readers;
    assert s.tasks + [NewTask(0, 0)] == s'.tasks;
    Later(cfg, s, Spawn(0), s');
  }

  lemma Later(cfg: Config, s: State, m: Move, s': State)
    requires Reachable(cfg, s) && Step(cfg, s, m) == Some(s')
    ensures Reachable(cfg, s')
  {
    LeadsStep(Next(cfg), Idle, s, m);
  }

  lemma LoneStep(cfg: Config, t: Task, a: Action, t': Task)
    requires Lone(cfg, t)
    requires forall e :: TaskStep(cfg, t, e, a) == Some((t', e))
    ensures Lone(cfg, t')
  {
    var s :| Reachable(cfg, s) && s.tasks == [t] && |s.epochs| == 1 && |s.readers| == 1
             && t.epoch == 0 && t.reader == 0;
    assert TaskStep(cfg, t, s.epochs[0], a) == Some((t', s.epochs[0]));
    var s' := Acted(s, 0, a, t', s.epochs[0]);
    Later(cfg, s, Act(0, a), s');
    assert s'.tasks == [t'];
  }

  lemma Answered(cfg: Config)
    requires cfg.auto
    ensures Lone(cfg, NewTask(0, 0).(pc := Counting(true), answers := [Fin], auto := true))
  {
    var t := NewTask(0, 0);
    LoneStart(cfg);
    LoneStep(cfg, t, Return(true), t.(pc := Returned(true)));
    LoneStep(cfg, t.(pc := Returned(true)), Check, t.(pc := Answering(true)));
    assert [] + [Fin] == [Fin];
    LoneStep(cfg, t.(pc := Answering(true)), AutoSend(true), t.(pc := Counting(true), answers := [Fin], auto := true));
  }

  /** The automatic answer, and then a clone's. */
  lemma LateClone(cfg: Config)
    requires cfg.auto && cfg.late
    ensures exists t :: Lone(cfg, t) && t.pc.AtRdy? && t.answers == [Fin, Req]
  {
    Answered(cfg);
    var t := NewTask(0, 0).(pc := Counting(true), answers := [Fin], auto := true);
    LoneStep(cfg, t, Claim(Req), t.(responded := true, owed := Some(Req), claimed := Some(Req)));
    t := t.(responded := true, owed := Some(Req), claimed := Some(Req));
    assert [Fin] + [Req] == [Fin, Req];
    LoneStep(cfg, t, CloneSend, t.(owed := None, answers := [Fin, Req]));
    t := t.(owed := None, answers := [Fin, Req]);
    LoneStep(cfg, t, Count, t.(pc := AtRdy(Finished)));
  }

  lemma ManualSilence(cfg: Config)
    requires !cfg.auto
    ensures exists t :: Lone(cfg, t) && t.pc.AtRdy? && t.answers == []
  {
    var t := NewTask(0, 0);
    LoneStart(cfg);
    LoneStep(cfg, t, Return(true), t.(pc := Returned(true)));
    t := t.(pc := Returned(true));
    LoneStep(cfg, t, Check, t.(pc := AtRdy(Unanswered)));
  }

  /** A clone wins the flag and its call is dropped before the send: nobody answers. */
  lemma CancelledClone(cfg: Config)
    requires cfg.cancel
    ensures exists t :: Lone(cfg, t) && t.pc.AtRdy? && t.answers == []
  {
    var t := NewTask(0, 0);
    LoneStart(cfg);
    LoneStep(cfg, t, Claim(Fin), t.(responded := true, owed := Some(Fin), claimed := Some(Fin)));
    t := t.(responded := true, owed := Some(Fin), claimed := Some(Fin));
    LoneStep(cfg, t, CloneDrop, t.(owed := None, dropped := true));
    t := t.(owed := None, dropped := true);
    LoneStep(cfg, t, Return(true), t.(pc := Returned(true)));
    t := t.(pc := Returned(true));
    LoneStep(cfg, t, Check, t.(pc := Counting(true)));
    t := t.(pc := Counting(true));
    LoneStep(cfg, t, Count, t.(pc := AtRdy(Finished)));
  }

  /** No message is answered twice, except by a clone that answers behind an automatic answer. */
  lemma AtMostOnceIff(cfg: Config)
    ensures AtMostOnce(cfg) <==> !(cfg.auto && cfg.late)
  {
    if cfg.auto && cfg.late {
      LateClone(cfg);
      var t :| Lone(cfg, t) && t.pc.AtRdy? && t.answers == [Fin, Req];
      var s :| Reachable(cfg, s) && s.tasks == [t] && |s.epochs| == 1;
      assert |s.tasks[0].answers| == 2;
    } else {
      forall s, i | Reachable(cfg, s) && 0 <= i < |s.tasks|
        ensures |s.tasks[i].answers| <= 1
      {
        TaskInvReachable(cfg, s);
        assert TaskInv(cfg, s.tasks[i]);
      }
    }
  }

  lemma OnceAtRdy(cfg: Config, t: Task)
    requires TaskInv(cfg, t) && t.pc.AtRdy? && cfg.auto && !cfg.late && !cfg.cancel
    ensures |t.answers| == 1 && t.owed.None?
  {
    assert OutcomeOf(t) == Some(t.pc.outcome);
    assert t.pc.outcome.Finished? || t.pc.outcome.Requeued?;
  }

  /** Every message is answered exactly once before the credit is touched, if and only if answers are
      automatic and clones answer in time and to the end. */
  lemma ExactlyOnceIff(cfg: Config)
    ensures ExactlyOnce(cfg) <==> cfg.auto && !cfg.late && !cfg.cancel
  {
    if cfg.auto && !cfg.late && !cfg.cancel {
      forall s, i | Reachable(cfg, s) && 0 <= i < |s.tasks| && s.tasks[i].pc.AtRdy?
        ensures |s.tasks[i].answers| == 1 && s.tasks[i].owed.None?
      {
        TaskInvReachable(cfg, s);
        OnceAtRdy(cfg, s.tasks[i]);
      }
    } else {
      if !cfg.auto {
        ManualSilence(cfg);
      } else if cfg.late {
        LateClone(cfg);
      } else {
        CancelledClone(cfg);
      }
      var t :| Lone(cfg, t) && t.pc.AtRdy? && |t.answers| != 1;
      var s :| Reachable(cfg, s) && s.tasks == [t] && |s.epochs| == 1;
      assert s.tasks[0].pc.AtRdy?;
    }
  }

  // ---------------------------------------------------------------- what is counted

  /** A message counted as finished was sent one FIN and nothing else, one counted as requeued one REQ. */
  predicate CountedRight(t: Task) {
    Counted(t).Some? && t.answers == [Counted(t).value]
  }

  /** For every counted message, whoever answered it and when: what was attempted is what is counted exactly
      if it was answered automatically and by no clone, or by a clone only and the clone's answer is the one
      that goes with the handler's verdict. */
  lemma CountedRightIff(cfg: Config, s: State, i: nat)
    requires Reachable(cfg, s) && i < |s.tasks| && Counted(s.tasks[i]).Some?
    ensures var t := s.tasks[i];
            CountedRight(t) <==>
              if t.auto then !ClaimSent(t) else ClaimSent(t) && t.claimed == Counted(t)
  {
    TaskInvReachable(cfg, s);
    assert TaskInv(cfg, s.tasks[i]);
  }

  /** Without late and cancelled clones: exactly if the handler made no answer of its own, or the one that
      goes with its verdict. */
  lemma AnswerMatchesOutcome(cfg: Config, s: State, i: nat)
    requires Reachable(cfg, s) && i < |s.tasks| && Counted(s.tasks[i]).Some? && !cfg.late && !cfg.cancel
    ensures var t := s.tasks[i];
            CountedRight(t) <==> t.claimed.None? || t.claimed == Counted(t)
  {
    TaskInvReachable(cfg, s);
    assert TaskInv(cfg, s.tasks[i]);
    CountedRightIff(cfg, s, i);
  }

  /** In every configuration a handler can requeue its message and return Ok, and the message is counted as
      finished. */
  lemma RequeuedCountedFinished(cfg: Config)
    ensures exists t :: Lone(cfg, t) && OutcomeOf(t) == Some(Finished) && t.answers == [Req]
  {
    var t := NewTask(0, 0);
    LoneStart(cfg);
    LoneStep(cfg, t, Claim(Req), t.(responded := true, owed := Some(Req), claimed := Some(Req)));
    t := t.(responded := true, owed := Some(Req), claimed := Some(Req));
    assert [] + [Req] == [Req];
    LoneStep(cfg, t, CloneSend, t.(owed := None, answers := [Req]));
    t := t.(owed := None, answers := [Req]);
    LoneStep(cfg, t, Return(true), t.(pc := Returned(true)));
    LoneStep(cfg, t.(pc := Returned(true)), Check, t.(pc := Counting(true)));
    LoneStep(cfg, t.(pc := Counting(true)), Count, t.(pc := AtRdy(Finished)));
  }

  /** Whether the automatic answer is sent does not depend on `disable_auto_response` of the message: what
      the handler sets is the flag of its own copy, or of a copy of that. */
  lemma DisableIsIgnored(cfg: Config, s: State, i: nat, e: Epoch)
    requires Reachable(cfg, s) && i < |s.tasks| && s.tasks[i].pc.Returned?
    ensures !s.tasks[i].OwnDisabled() && TaskStep(cfg, s.tasks[i], e, Check).Some?
    ensures TaskStep(cfg, s.tasks[i], e, Check).value.0.pc.Answering? <==> cfg.auto && !s.tasks[i].responded
  {
    TaskInvReachable(cfg, s);
    assert TaskInv(cfg, s.tasks[i]);
  }

  /** A handler disables the automatic answer of its message, returns without an answer of its own, and
      the FIN is sent all the same. */
  lemma DisabledAndFinished(cfg: Config)
    requires cfg.auto
    ensures exists t :: Lone(cfg, t) && t.disabled == [false, true] && !t.responded && t.answers == [Fin]
  {
    var t := NewTask(0, 0);
    LoneStart(cfg);
    assert t.disabled[1 := true] == [false, true];
    LoneStep(cfg, t, Disable(1), t.(disabled := [false, true]));
    t := t.(disabled := [false, true]);
    LoneStep(cfg, t, Return(true), t.(pc := Returned(true)));
    LoneStep(cfg, t.(pc := Returned(true)), Check, t.(pc := Answering(true)));
    assert [] + [Fin] == [Fin];
    LoneStep(cfg, t.(pc := Answering(true)), AutoSend(true), t.(pc := Counting(true), answers := [Fin], auto := true));
  }
}
