/** How a consumer delivers messages: the reader loop of every connection, the tasks it spawns, their
    answers, and the RDY credit they share.  A task is a sequence of separate steps, and the steps of all
    tasks, readers and message clones interleave in any order. */
module Delivery {
  import opened Tally
  import opened Transitions

  /** maxInFlight and concurrentHandlers as configured; auto unless `disable_auto_response` is set. late:
      clones may answer after their handler returned.  cancel: a clone's call may be dropped between its
      compare-exchange and its send.  again: addresses may be disconnected and connected again. */
  datatype Config = Config(maxInFlight: int, concurrentHandlers: nat, auto: bool, late: bool, cancel: bool, again: bool)
  {
    function Permits(): nat {
      if concurrentHandlers >= 1 then concurrentHandlers else 1
    }

    /** Division truncates. */
    function Half(): int {
      if maxInFlight >= 0 then maxInFlight / 2 else -(-maxInFlight / 2)
    }
  }

  datatype Answer = Fin | Req

  datatype Outcome = Finished | Requeued | Unanswered | SendFailed | Panicked

  datatype Pc =
    | Handling                          // in handle_message
    | Returned(ok: bool)                // before the test of the responded flag
    | Answering(ok: bool)               // before the automatic FIN or REQ
    | Counting(ok: bool)                // before messages_finished or messages_requeued
    | AtRdy(outcome: Outcome)           // before the decrement
    | Refilling(outcome: Outcome)       // decremented to the threshold, before the RDY command
    | Storing(outcome: Outcome)         // before the store
    | Ended(outcome: Outcome)           // permit dropped

  /** responded is the flag all copies of the message share; disabled has the plain flag of each copy, the
      consumer's own first, behind it the one that was cloned for the handler and all that the handler
      cloned from that.  owed is the answer of the clone that won the flag and did not send yet;
      claimed, answers, auto and dropped are history: the answer of that clone, what was attempted, whether
      automatically, and whether the winner's call was cancelled. */
  datatype Task = Task(reader: nat, epoch: nat, pc: Pc, responded: bool, disabled: seq<bool>,
                       owed: Option<Answer>, claimed: Option<Answer>, answers: seq<Answer>, auto: bool, dropped: bool)
  {
    predicate Live() {
      !pc.Ended?
    }

    /** `is_auto_response_disabled`, as the consumer asks its own copy. */
    predicate OwnDisabled() {
      disabled != [] && disabled[0]
    }

    predicate Pending() {
      pc.Refilling? || pc.Storing?
    }
  }

  /** One run of `handle_connection`: its credit, and how many RDY commands were sent and failed and how
      often the credit was decremented. */
  datatype Epoch = Epoch(reader: nat, rdy: int, sends: nat, failed: nat, steps: nat)

  datatype Phase = Down | Reading | Waiting

  datatype Reader = Reader(addr: nat, phase: Phase, epoch: nat, permits: nat, received: nat)

  datatype State = State(readers: seq<Reader>, epochs: seq<Epoch>, tasks: seq<Task>,
                         received: nat, finished: nat, requeued: nat)

  // ---------------------------------------------------------------- steps of a task

  datatype Action =
    | Claim(answer: Answer)       // a clone's finish or requeue wins the compare-exchange
    | CloneSend
    | CloneDrop
    | Disable(copy: nat)          // disable_auto_response on a copy the handler has
    | Duplicate(copy: nat)        // the handler clones one
    | Return(ok: bool)
    | Panic
    | Check
    | AutoSend(sent: bool)
    | Count
    | Decrement
    | Refill(sent: bool)
    | Store

  function AnswerTo(ok: bool): Answer {
    if ok then Fin else Req
  }

  function TaskStep(cfg: Config, t: Task, e: Epoch, a: Action): Option<(Task, Epoch)> {
    match a
    case Claim(answer) =>
      if !t.responded && (t.pc.Handling? || cfg.late) then
        Some((t.(responded := true, owed := Some(answer), claimed := Some(answer)), e))
      else None
    case CloneSend =>
      if t.owed.Some? then Some((t.(owed := None, answers := t.answers + [t.owed.value]), e)) else None
    case CloneDrop =>
      if t.owed.Some? && cfg.cancel then Some((t.(owed := None, dropped := true), e)) else None
    case Disable(k) =>
      if 0 < k < |t.disabled| then Some((t.(disabled := t.disabled[k := true]), e)) else None
    case Duplicate(k) =>
      if 0 < k < |t.disabled| then Some((t.(disabled := t.disabled + [t.disabled[k]]), e)) else None
    case Return(ok) =>
      if t.pc.Handling? && (t.owed.None? || cfg.late) then Some((t.(pc := Returned(ok)), e)) else None
    case Panic =>
      if t.pc.Handling? then Some((t.(pc := Ended(Panicked)), e)) else None
    case Check =>
      if !t.pc.Returned? then None
      else if cfg.auto && !t.OwnDisabled() && !t.responded then Some((t.(pc := Answering(t.pc.ok)), e))
      else if t.responded then Some((t.(pc := Counting(t.pc.ok)), e))
      else Some((t.(pc := AtRdy(Unanswered)), e))
    case AutoSend(sent) =>
      if !t.pc.Answering? then None
      else
        Some((t.(pc := if sent then Counting(t.pc.ok) else Ended(SendFailed),
                 answers := t.answers + [AnswerTo(t.pc.ok)], auto := true), e))
    case Count =>
      if t.pc.Counting? then Some((t.(pc := AtRdy(if t.pc.ok then Finished else Requeued)), e)) else None
    case Decrement =>
      if !t.pc.AtRdy? then None
      else
        Some((t.(pc := if e.rdy - 1 <= cfg.Half() then Refilling(t.pc.outcome) else Ended(t.pc.outcome)),
              e.(rdy := e.rdy - 1, steps := e.steps + 1)))
    case Refill(sent) =>
      if !t.pc.Refilling? then None
      else if sent then Some((t.(pc := Storing(t.pc.outcome)), e.(sends := e.sends + 1)))
      else Some((t.(pc := Ended(t.pc.outcome)), e.(failed := e.failed + 1)))
    case Store =>
      if t.pc.Storing? then Some((t.(pc := Ended(t.pc.outcome)), e.(rdy := cfg.maxInFlight))) else None
  }

  // ---------------------------------------------------------------- steps of the consumer

  datatype Move =
    | Connect(addr: nat)          // a new address, or one that was disconnected
    | Begin(r: nat)               // handle_connection has sent SUB and RDY
    | Drop(r: nat)                // it returns
    | Receive(r: nat)             // a message frame
    | Spawn(r: nat)               // a permit is there
    | Act(t: nat, a: Action)

  /** A message is decoded with its flag unset, and cloned for the handler. */
  function NewTask(r: nat, epoch: nat): Task {
    var own := false;
    Task(r, epoch, Handling, false, [own, own], None, None, [], false, false)
  }

  /** The credit of a connection that has just sent SUB and RDY. */
  function NewEpoch(cfg: Config, r: nat): Epoch {
    Epoch(r, cfg.maxInFlight, 1, 0, 0)
  }

  predicate Known(s: State, addr: nat) {
    exists r :: 0 <= r < |s.readers| && s.readers[r].addr == addr
  }

  function Bit(b: bool): nat {
    if b then 1 else 0
  }

  function Next(cfg: Config): (State, Move) -> Option<State> {
    (s, m) => Step(cfg, s, m)
  }

  function Step(cfg: Config, s: State, m: Move): Option<State> {
    match m
    case Connect(addr) =>
      if cfg.again || !Known(s, addr) then
        Some(s.(readers := s.readers + [Reader(addr, Down, 0, cfg.Permits(), 0)]))
      else None
    case Begin(r) =>
      if r < |s.readers| && s.readers[r].phase.Down? then
        Some(s.(readers := s.readers[r := s.readers[r].(phase := Reading, epoch := |s.epochs|)],
                epochs := s.epochs + [NewEpoch(cfg, r)]))
      else None
    case Drop(r) =>
      if r < |s.readers| && s.readers[r].phase.Reading? then
        Some(s.(readers := s.readers[r := s.readers[r].(phase := Down)]))
      else None
    case Receive(r) =>
      if r < |s.readers| && s.readers[r].phase.Reading? then
        Some(s.(readers := s.readers[r := s.readers[r].(phase := Waiting, received := s.readers[r].received + 1)],
                received := s.received + 1))
      else None
    case Spawn(r) =>
      if r < |s.readers| && s.readers[r].phase.Waiting? && s.readers[r].permits > 0 then
        Some(s.(readers := s.readers[r := s.readers[r].(phase := Reading, permits := s.readers[r].permits - 1)],
                tasks := s.tasks + [NewTask(r, s.readers[r].epoch)]))
      else None
    case Act(t, a) =>
      if t < |s.tasks| && s.tasks[t].epoch < |s.epochs| && s.tasks[t].reader < |s.readers| then
        match TaskStep(cfg, s.tasks[t], s.epochs[s.tasks[t].epoch], a)
        case None => None
        case Some((task, epoch)) => Some(Acted(s, t, a, task, epoch))
      else None
  }

  /** A task that ends gives its permit back; counting bumps one of the two counters. */
  function Acted(s: State, t: nat, a: Action, task: Task, epoch: Epoch): State
    requires t < |s.tasks| && s.tasks[t].epoch < |s.epochs| && s.tasks[t].reader < |s.readers|
  {
    var was, reader := s.tasks[t], s.readers[s.tasks[t].reader];
    s.(tasks := s.tasks[t := task],
       epochs := s.epochs[was.epoch := epoch],
       readers := s.readers[was.reader := reader.(permits := reader.permits + Bit(was.Live() && !task.Live()))],
       finished := s.finished + Bit(a.Count? && was.pc == Counting(true)),
       requeued := s.requeued + Bit(a.Count? && was.pc == Counting(false)))
  }

  const Idle: State := State([], [], [], 0, 0, 0)

  ghost predicate Reachable(cfg: Config, s: State) {
    Leads(Next(cfg), Idle, s)
  }

  // ---------------------------------------------------------------- counting

  function LiveAt(r: nat): Task -> nat {
    (t: Task) => Bit(t.reader == r && t.Live())
  }

  function EndedAt(r: nat): Task -> nat {
    (t: Task) => Bit(t.reader == r && !t.Live())
  }

  function PendingAt(e: nat): Task -> nat {
    (t: Task) => Bit(t.epoch == e && t.Pending())
  }

  /** Tasks whose message is settled in this way. */
  function With(outcome: Outcome): Task -> nat {
    (t: Task) => Bit(OutcomeOf(t) == Some(outcome))
  }

  function Unsettled(): Task -> nat {
    (t: Task) => Bit(OutcomeOf(t).None?)
  }

  function OutcomeOf(t: Task): Option<Outcome> {
    match t.pc
    case Handling => None
    case Returned(_) => None
    case Answering(_) => None
    case Counting(_) => None
    case AtRdy(o) => Some(o)
    case Refilling(o) => Some(o)
    case Storing(o) => Some(o)
    case Ended(o) => Some(o)
  }

  function IsWaiting(): Reader -> nat {
    (r: Reader) => Bit(r.phase.Waiting?)
  }

  function ReceivedBy(): Reader -> nat {
    (r: Reader) => r.received
  }

  lemma OneMove(cfg: Config, s: State, m: Move, s': State)
    requires Step(cfg, s, m) == Some(s')
    ensures Leads(Next(cfg), s, s')
  {
    LeadsRefl(Next(cfg), s);
    LeadsStep(Next(cfg), s, s, m);
  }
}
