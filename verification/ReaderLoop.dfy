/** The reader loop on one connection: from the bytes of the server to messages in tasks.  It runs amid the
    other readers and all tasks, whose moves in the step system of `Delivery` come between its own. */
module ReaderLoop {
  import opened Tally
  import opened Transitions
  import opened Bytes
  import opened Commands
  import opened CommandParser
  import opened ConnectionImplementation
  import Frames
  import Delivery
  import DeliveryCredit

  const HEARTBEAT: seq<byte> := [95, 104, 101, 97, 114, 116, 98, 101, 97, 116, 95]
  const E_INVALID: seq<byte> := [69, 95, 73, 78, 86, 65, 76, 73, 68]

  predicate ContainsAt(b: seq<byte>, part: seq<byte>, i: nat) {
    i + |part| <= |b| && b[i..i + |part|] == part
  }

  predicate Contains(b: seq<byte>, part: seq<byte>) {
    exists i: nat :: i <= |b| && ContainsAt(b, part, i)
  }

  predicate Fatal(f: Frames.Frame) {
    f.ErrorFrame? && Contains(f.data, E_INVALID)
  }

  predicate IsHeartbeat(f: Frames.Frame) {
    f == Frames.Response(HEARTBEAT)
  }

  function MessageIn(f: Frames.Frame): seq<Frames.Message> {
    if f.MessageFrame? then [f.msg] else []
  }

  // ---------------------------------------------------------------- amid the others

  predicate Own(r: nat, m: Delivery.Move) {
    (m.Begin? || m.Drop? || m.Receive? || m.Spawn?) && m.r == r
  }

  function Do(cfg: Delivery.Config, s: Delivery.State, m: Delivery.Move): Delivery.State {
    match Delivery.Step(cfg, s, m) case Some(s') => s' case None => s
  }

  /** What the others do, as far as they can; the moves of reader r are its own. */
  function Others(cfg: Delivery.Config, r: nat, s: Delivery.State, moves: seq<Delivery.Move>): Delivery.State
    decreases |moves|
  {
    if moves == [] then s
    else Others(cfg, r, if Own(r, moves[0]) then s else Do(cfg, s, moves[0]), moves[1..])
  }

  predicate HasPermit(s: Delivery.State, r: nat) {
    r < |s.readers| && s.readers[r].permits > 0
  }

  // ---------------------------------------------------------------- one turn

  /** What wakes the loop next: the heartbeat timer or a frame; whether the NOP gets out that may be due; and
      what the others do before the loop goes on.  It finds the flag lowered behind the last event of a
      schedule. */
  datatype Event =
    | Tick(fate: Fate, others: seq<Delivery.Move>)
    | Incoming(fate: Fate, others: seq<Delivery.Move>)

  /** Stopped by the flag, broken by an error, crashed by a panic in a decoder, which takes the connection's
      task with it, so that nobody reconnects; or still waiting for a permit. */
  datatype End = Stopped | Broken | Crashed | Waiting

  /** The message put into a task, if any, the bytes written, what is left unread, how the loop ended, if it
      did, and the consumer's state. */
  datatype Turn = Turn(message: seq<Frames.Message>, out: seq<byte>, rest: seq<byte>, end: Option<End>,
                       state: Delivery.State)

  datatype Handled = Handled(delivered: seq<Frames.Message>, out: seq<byte>, end: End, rest: seq<byte>,
                             state: Delivery.State)

  /** A message is received, the others go on, and if there is a permit then the message gets its task. */
  function Take(cfg: Delivery.Config, r: nat, s: Delivery.State, msg: Frames.Message, rest: seq<byte>,
                others: seq<Delivery.Move>): Turn
  {
    var s1 := Others(cfg, r, Do(cfg, s, Delivery.Receive(r)), others);
    if HasPermit(s1, r) then Turn([msg], [], rest, None, Do(cfg, s1, Delivery.Spawn(r)))
    else Turn([], [], rest, Some(End.Waiting), s1)
  }

  function TurnOf(cfg: Delivery.Config, r: nat, s: Delivery.State, inbox: seq<byte>, event: Event): Turn {
    var answer := Out(Encode(Nop), event.fate);
    var unsent := if event.fate.Cut? then Some(Broken) else None;
    var s1 := Others(cfg, r, s, event.others);
    if event.Tick? then Turn([], answer, inbox, unsent, s1)
    else
      match Frames.NextFrame(inbox)
      case (Ok(f), rest) =>
        if Fatal(f) then Turn([], [], rest, Some(Broken), s1)
        else if IsHeartbeat(f) then Turn([], answer, rest, unsent, s1)
        else if f.MessageFrame? then Take(cfg, r, s, f.msg, rest, event.others)
        else Turn([], [], rest, None, s1)
      case (Err(_), rest) => Turn([], [], rest, Some(Broken), s1)
      case (Panicked, rest) => Turn([], [], rest, Some(End.Crashed), s1)
  }

  function After(delivered: seq<Frames.Message>, out: seq<byte>, h: Handled): Handled {
    h.(delivered := delivered + h.delivered, out := out + h.out)
  }

  function Handle(cfg: Delivery.Config, r: nat, s: Delivery.State, inbox: seq<byte>, schedule: seq<Event>): Handled
    decreases |schedule|
  {
    if schedule == [] then Handled([], [], Stopped, inbox, s)
    else
      var t := TurnOf(cfg, r, s, inbox, schedule[0]);
      match t.end
      case Some(end) => Handled(t.message, t.out, end, t.rest, t.state)
      case None => After(t.message, t.out, Handle(cfg, r, t.state, t.rest, schedule[1..]))
  }

  // ---------------------------------------------------------------- the loop

  /** One turn, behind what was done so far. */
  lemma AfterTurn(delivered: seq<Frames.Message>, out: seq<byte>, cfg: Delivery.Config, r: nat, s: Delivery.State,
                  inbox: seq<byte>, schedule: seq<Event>, i: nat)
    requires i < |schedule|
    ensures var t := TurnOf(cfg, r, s, inbox, schedule[i]);
            After(delivered, out, Handle(cfg, r, s, inbox, schedule[i..])) ==
              match t.end
              case Some(end) => Handled(delivered + t.message, out + t.out, end, t.rest, t.state)
              case None =>
                After(delivered + t.message, out + t.out, Handle(cfg, r, t.state, t.rest, schedule[i + 1..]))
  {
    var t := TurnOf(cfg, r, s, inbox, schedule[i]);
    assert schedule[i..][1..] == schedule[i + 1..];
    if t.end.None? {
      AfterAgain(delivered, out, t.message, t.out, Handle(cfg, r, t.state, t.rest, schedule[i + 1..]));
    }
  }

  lemma AfterAgain(d: seq<Frames.Message>, out: seq<byte>, d': seq<Frames.Message>, out': seq<byte>, h: Handled)
    ensures After(d, out, After(d', out', h)) == After(d + d', out + out', h)
  {
    assert d + (d' + h.delivered) == (d + d') + h.delivered;
    assert out + (out' + h.out) == (out + out') + h.out;
  }

  lemma LoopDone(delivered: seq<Frames.Message>, out: seq<byte>, cfg: Delivery.Config, r: nat, s: Delivery.State,
                 inbox: seq<byte>, schedule: seq<Event>)
    ensures After(delivered, out, Handle(cfg, r, s, inbox, schedule[|schedule|..]))
         == Handled(delivered, out, Stopped, inbox, s)
    ensures After([], [], Handle(cfg, r, s, inbox, schedule[0..])) == Handle(cfg, r, s, inbox, schedule)
  {
    assert schedule[0..] == schedule;
    assert delivered + [] == delivered && out + [] == out;
  }

  method SendNop(conn: Connection, fate: Fate) returns (end: Option<End>)
    modifies conn`wire
    ensures end == (if fate.Cut? then Some(Broken) else None) && conn.wire == old(conn.wire) + Out(Encode(Nop), fate)
  {
    var sent := conn.SendCommand(Nop, fate);
    end := if sent then None else Some(Broken);
  }

  method OneTurn(conn: Connection, cfg: Delivery.Config, r: nat, s: Delivery.State, event: Event) returns (t: Turn)
    modifies conn`wire, conn`inbox
    ensures t == TurnOf(cfg, r, s, old(conn.inbox), event)
    ensures conn.inbox == t.rest && conn.wire == old(conn.wire) + t.out
  {
    var answer, s1 := Out(Encode(Nop), event.fate), Others(cfg, r, s, event.others);
    if event.Tick? {
      var end := SendNop(conn, event.fate);
      return Turn([], answer, conn.inbox, end, s1);
    }
    var f := conn.ReadFrame();
    match f {
      case Err(_) =>
        t := Turn([], [], conn.inbox, Some(Broken), s1);
      case Panicked =>
        t := Turn([], [], conn.inbox, Some(End.Crashed), s1);
      case Ok(Response(data)) =>
        if data == HEARTBEAT {
          var end := SendNop(conn, event.fate);
          return Turn([], answer, conn.inbox, end, s1);
        }
        t := Turn([], [], conn.inbox, None, s1);
      case Ok(ErrorFrame(data)) =>
        t := Turn([], [], conn.inbox, if Contains(data, E_INVALID) then Some(Broken) else None, s1);
      case Ok(MessageFrame(msg)) =>
        var s2 := Others(cfg, r, Do(cfg, s, Delivery.Receive(r)), event.others);
        if HasPermit(s2, r) {
          return Turn([msg], [], conn.inbox, None, Do(cfg, s2, Delivery.Spawn(r)));
        }
        t := Turn([], [], conn.inbox, Some(End.Waiting), s2);
    }
  }

  method Loop(conn: Connection, cfg: Delivery.Config, r: nat, s: Delivery.State, schedule: seq<Event>)
    returns (h: Handled)
    modifies conn`wire, conn`inbox
    ensures h == Handle(cfg, r, s, old(conn.inbox), schedule)
    ensures conn.inbox == h.rest && conn.wire == old(conn.wire) + h.out
  {
    ghost var all := Handle(cfg, r, s, conn.inbox, schedule);
    var delivered, out, st := [], [], s;
    LoopDone([], [], cfg, r, s, conn.inbox, schedule);
    var i := 0;
    while i < |schedule|
      invariant 0 <= i <= |schedule|
      invariant all == After(delivered, out, Handle(cfg, r, st, conn.inbox, schedule[i..]))
      invariant conn.wire == old(conn.wire) + out
    {
      AfterTurn(delivered, out, cfg, r, st, conn.inbox, schedule, i);
      var t := OneTurn(conn, cfg, r, st, schedule[i]);
      Associative(old(conn.wire), out, t.out);
      delivered, out, st := delivered + t.message, out + t.out, t.state;
      if t.end.Some? {
        return Handled(delivered, out, t.end.value, conn.inbox, st);
      }
      i := i + 1;
    }
    LoopDone(delivered, out, cfg, r, st, conn.inbox, schedule);
    return Handled(delivered, out, Stopped, conn.inbox, st);
  }

  // ---------------------------------------------------------------- in the step system

  function InEpoch(e: nat): Delivery.Task -> nat {
    (t: Delivery.Task) => Delivery.Bit(t.epoch == e)
  }

  /** The way from s to s' is a run; on it reader r has received n messages and put k of them into tasks of
      its epoch, and its permits are as many as before but for these. */
  ghost predicate Continues(cfg: Delivery.Config, r: nat, s: Delivery.State, s': Delivery.State, n: nat, k: nat) {
    && Leads(Delivery.Next(cfg), s, s') && DeliveryCredit.ShapeInv(s')
    && r < |s.readers| <= |s'.readers| && s'.readers[r].epoch == s.readers[r].epoch
    && s'.readers[r].received == s.readers[r].received + n
    && s'.readers[r].permits + k >= s.readers[r].permits
    && Sum(s'.tasks, InEpoch(s.readers[r].epoch)) == Sum(s.tasks, InEpoch(s.readers[r].epoch)) + k
  }

  ghost predicate Up(s: Delivery.State, r: nat, phase: Delivery.Phase) {
    DeliveryCredit.ShapeInv(s) && r < |s.readers| && s.readers[r].phase == phase && !phase.Down?
  }

  lemma ContinuesRefl(cfg: Delivery.Config, r: nat, s: Delivery.State)
    requires DeliveryCredit.ShapeInv(s) && r < |s.readers|
    ensures Continues(cfg, r, s, s, 0, 0)
  {
    LeadsRefl(Delivery.Next(cfg), s);
  }

  lemma ContinuesTrans(cfg: Delivery.Config, r: nat, s: Delivery.State, t: Delivery.State, u: Delivery.State,
                       n: nat, k: nat, n': nat, k': nat)
    requires Continues(cfg, r, s, t, n, k) && Continues(cfg, r, t, u, n', k')
    ensures Continues(cfg, r, s, u, n + n', k + k')
  {
    LeadsTrans(Delivery.Next(cfg), s, t, u);
  }

  lemma TheirTasks(cfg: Delivery.Config, r: nat, s: Delivery.State, m: Delivery.Move, phase: Delivery.Phase)
    requires Up(s, r, phase) && !Own(r, m) && Delivery.Step(cfg, s, m).Some?
    ensures var e := s.readers[r].epoch;
            Sum(Delivery.Step(cfg, s, m).value.tasks, InEpoch(e)) == Sum(s.tasks, InEpoch(e))
  {
    var e, s' := s.readers[r].epoch, Delivery.Step(cfg, s, m).value;
    match m
    case Spawn(q) => SumAppend(s.tasks, InEpoch(e), Delivery.NewTask(q, s.readers[q].epoch));
    case Act(t, a) =>
      DeliveryCredit.TaskKeeps(cfg, s.tasks[t], s.epochs[s.tasks[t].epoch], a);
      SumUpdate(s.tasks, InEpoch(e), t, s'.tasks[t]);
    case _ =>
  }

  lemma TheirMove(cfg: Delivery.Config, r: nat, s: Delivery.State, m: Delivery.Move, phase: Delivery.Phase)
    requires Up(s, r, phase) && !Own(r, m)
    ensures Continues(cfg, r, s, Do(cfg, s, m), 0, 0) && Up(Do(cfg, s, m), r, phase)
  {
    if Delivery.Step(cfg, s, m).Some? {
      DeliveryCredit.ShapeStep(cfg, s, m);
      Delivery.OneMove(cfg, s, m, Do(cfg, s, m));
      TheirTasks(cfg, r, s, m, phase);
      TheirReaders(cfg, r, s, m);
    } else {
      ContinuesRefl(cfg, r, s);
    }
  }

  lemma TheirReaders(cfg: Delivery.Config, r: nat, s: Delivery.State, m: Delivery.Move)
    requires r < |s.readers| && !Own(r, m) && Delivery.Step(cfg, s, m).Some?
    ensures var s' := Delivery.Step(cfg, s, m).value;
            && |s.readers| <= |s'.readers| && s'.readers[r].phase == s.readers[r].phase
            && s'.readers[r].epoch == s.readers[r].epoch && s'.readers[r].received == s.readers[r].received
            && s'.readers[r].permits >= s.readers[r].permits
  {
  }

  lemma {:induction false} OthersContinue(cfg: Delivery.Config, r: nat, s: Delivery.State, moves: seq<Delivery.Move>,
                                          phase: Delivery.Phase)
    requires Up(s, r, phase)
    ensures Continues(cfg, r, s, Others(cfg, r, s, moves), 0, 0) && Up(Others(cfg, r, s, moves), r, phase)
    decreases |moves|
  {
    ContinuesRefl(cfg, r, s);
    if moves != [] {
      var s1 := if Own(r, moves[0]) then s else Do(cfg, s, moves[0]);
      if !Own(r, moves[0]) {
        TheirMove(cfg, r, s, moves[0], phase);
      }
      OthersContinue(cfg, r, s1, moves[1..], phase);
      ContinuesTrans(cfg, r, s, s1, Others(cfg, r, s, moves), 0, 0, 0, 0);
    }
  }

  lemma ReceiveContinues(cfg: Delivery.Config, r: nat, s: Delivery.State)
    requires Up(s, r, Delivery.Reading)
    ensures var s' := Do(cfg, s, Delivery.Receive(r)); Continues(cfg, r, s, s', 1, 0) && Up(s', r, Delivery.Waiting)
  {
    DeliveryCredit.ShapeStep(cfg, s, Delivery.Receive(r));
    Delivery.OneMove(cfg, s, Delivery.Receive(r), Do(cfg, s, Delivery.Receive(r)));
  }

  lemma SpawnContinues(cfg: Delivery.Config, r: nat, s: Delivery.State)
    requires Up(s, r, Delivery.Waiting) && HasPermit(s, r)
    ensures var s' := Do(cfg, s, Delivery.Spawn(r)); Continues(cfg, r, s, s', 0, 1) && Up(s', r, Delivery.Reading)
  {
    var e := s.readers[r].epoch;
    DeliveryCredit.ShapeStep(cfg, s, Delivery.Spawn(r));
    Delivery.OneMove(cfg, s, Delivery.Spawn(r), Do(cfg, s, Delivery.Spawn(r)));
    SumAppend(s.tasks, InEpoch(e), Delivery.NewTask(r, e));
  }

  function PhaseAt(end: Option<End>): Delivery.Phase {
    if end == Some(End.Waiting) then Delivery.Waiting else Delivery.Reading
  }

  lemma TakeContinues(cfg: Delivery.Config, r: nat, s: Delivery.State, msg: Frames.Message, rest: seq<byte>,
                      others: seq<Delivery.Move>)
    requires Up(s, r, Delivery.Reading)
    ensures var t := Take(cfg, r, s, msg, rest, others);
            Continues(cfg, r, s, t.state, 1, |t.message|) && Up(t.state, r, PhaseAt(t.end))
            && |t.message| + Delivery.Bit(t.end == Some(End.Waiting)) == 1
  {
    var s1 := Do(cfg, s, Delivery.Receive(r));
    var s2 := Others(cfg, r, s1, others);
    ReceiveContinues(cfg, r, s);
    OthersContinue(cfg, r, s1, others, Delivery.Waiting);
    ContinuesTrans(cfg, r, s, s1, s2, 1, 0, 0, 0);
    if HasPermit(s2, r) {
      SpawnContinues(cfg, r, s2);
      ContinuesTrans(cfg, r, s, s2, Do(cfg, s2, Delivery.Spawn(r)), 1, 0, 0, 1);
    }
  }

  predicate MessageIsNext(inbox: seq<byte>, event: Event) {
    var f := Frames.NextFrame(inbox).0;
    event.Incoming? && f.Ok? && f.value.MessageFrame?
  }

  lemma TurnState(cfg: Delivery.Config, r: nat, s: Delivery.State, inbox: seq<byte>, event: Event)
    ensures var t := TurnOf(cfg, r, s, inbox, event);
            if MessageIsNext(inbox, event) then
              var (f, rest) := Frames.NextFrame(inbox);
              t == Take(cfg, r, s, f.value.msg, rest, event.others)
            else t.state == Others(cfg, r, s, event.others) && t.message == [] && t.end != Some(End.Waiting)
  {
  }

  lemma TurnContinues(cfg: Delivery.Config, r: nat, s: Delivery.State, inbox: seq<byte>, event: Event)
    requires Up(s, r, Delivery.Reading)
    ensures var t := TurnOf(cfg, r, s, inbox, event);
            Continues(cfg, r, s, t.state, |t.message| + Delivery.Bit(t.end == Some(End.Waiting)), |t.message|)
            && Up(t.state, r, PhaseAt(t.end))
  {
    TurnState(cfg, r, s, inbox, event);
    if MessageIsNext(inbox, event) {
      var (f, rest) := Frames.NextFrame(inbox);
      TakeContinues(cfg, r, s, f.value.msg, rest, event.others);
    } else {
      OthersContinue(cfg, r, s, event.others, Delivery.Reading);
    }
  }

  lemma {:induction false} HandleContinues(cfg: Delivery.Config, r: nat, s: Delivery.State, inbox: seq<byte>,
                                           schedule: seq<Event>)
    requires Up(s, r, Delivery.Reading)
    ensures var h := Handle(cfg, r, s, inbox, schedule);
            Continues(cfg, r, s, h.state, |h.delivered| + Delivery.Bit(h.end.Waiting?), |h.delivered|)
            && Up(h.state, r, PhaseAt(Some(h.end)))
    decreases |schedule|
  {
    if schedule == [] {
      ContinuesRefl(cfg, r, s);
    } else {
      var t := TurnOf(cfg, r, s, inbox, schedule[0]);
      TurnContinues(cfg, r, s, inbox, schedule[0]);
      if t.end.None? {
        var h := Handle(cfg, r, t.state, t.rest, schedule[1..]);
        HandleContinues(cfg, r, t.state, t.rest, schedule[1..]);
        ContinuesTrans(cfg, r, s, t.state, h.state, |t.message|, |t.message|,
                       |h.delivered| + Delivery.Bit(h.end.Waiting?), |h.delivered|);
      }
    }
  }

  // ---------------------------------------------------------------- one connection

  function Subscription(cfg: Delivery.Config, topic: seq<byte>, channel: seq<byte>): seq<Command>
    requires -0x8000_0000 <= cfg.maxInFlight < 0x8000_0000
  {
    [Subscribe(topic, channel)] + [Ready(AsU32(cfg.maxInFlight))]
  }

  method SubscribeTo(conn: Connection, cfg: Delivery.Config, topic: seq<byte>, channel: seq<byte>, sub: Fate, rdy: Fate)
    returns (ok: bool)
    requires -0x8000_0000 <= cfg.maxInFlight < 0x8000_0000
    modifies conn`wire
    ensures ok <==> sub.Whole? && rdy.Whole?
    ensures ok ==> conn.wire == old(conn.wire) + EncodeAll(Subscription(cfg, topic, channel))
    ensures old(conn.wire) <= conn.wire <= old(conn.wire) + EncodeAll(Subscription(cfg, topic, channel))
  {
    BehindOne(conn.wire, Subscribe(topic, channel), Ready(AsU32(cfg.maxInFlight)));
    ok := conn.SendCommand(Subscribe(topic, channel), sub);
    if ok {
      ok := conn.SendCommand(Ready(AsU32(cfg.maxInFlight)), rdy);
    }
  }

  /** The loop between its first and its last move in the step system. */
  function Connected(cfg: Delivery.Config, r: nat, s: Delivery.State, inbox: seq<byte>, schedule: seq<Event>): Handled {
    var h := Handle(cfg, r, Do(cfg, s, Delivery.Begin(r)), inbox, schedule);
    if h.end.Waiting? then h else h.(state := Do(cfg, h.state, Delivery.Drop(r)))
  }

  /** From s on a run has led to h: reader r has received the messages delivered, and one more if it waits
      for a permit, and exactly the messages delivered have tasks in the epoch that began in s. */
  ghost predicate OneEpoch(cfg: Delivery.Config, r: nat, s: Delivery.State, h: Handled)
    requires r < |s.readers|
  {
    && Leads(Delivery.Next(cfg), s, h.state) && r < |h.state.readers|
    && h.state.readers[r].phase == (if h.end.Waiting? then Delivery.Waiting else Delivery.Down)
    && h.state.readers[r].epoch == |s.epochs|
    && h.state.readers[r].received == s.readers[r].received + |h.delivered| + Delivery.Bit(h.end.Waiting?)
    && Sum(h.state.tasks, InEpoch(|s.epochs|)) == |h.delivered|
  }

  lemma BeginsAnEpoch(cfg: Delivery.Config, r: nat, s: Delivery.State)
    requires DeliveryCredit.ShapeInv(s) && r < |s.readers| && s.readers[r].phase.Down?
    ensures var s' := Do(cfg, s, Delivery.Begin(r));
            && Leads(Delivery.Next(cfg), s, s') && Up(s', r, Delivery.Reading)
            && s'.readers[r].epoch == |s.epochs| && s'.readers[r].received == s.readers[r].received
            && s'.readers[r].permits == s.readers[r].permits
            && Sum(s'.tasks, InEpoch(|s.epochs|)) == 0
  {
    var s' := Do(cfg, s, Delivery.Begin(r));
    DeliveryCredit.ShapeStep(cfg, s, Delivery.Begin(r));
    Delivery.OneMove(cfg, s, Delivery.Begin(r), s');
    forall i | 0 <= i < |s'.tasks|
      ensures InEpoch(|s.epochs|)(s'.tasks[i]) == 0
    {
      assert DeliveryCredit.TaskBelongs(s, s.tasks[i]);
    }
    SumZero(s'.tasks, InEpoch(|s.epochs|));
  }

  lemma ConnectedIsOneEpoch(cfg: Delivery.Config, r: nat, s: Delivery.State, inbox: seq<byte>, schedule: seq<Event>)
    requires DeliveryCredit.ShapeInv(s) && r < |s.readers| && s.readers[r].phase.Down?
    ensures OneEpoch(cfg, r, s, Connected(cfg, r, s, inbox, schedule))
  {
    var s1 := Do(cfg, s, Delivery.Begin(r));
    var h := Handle(cfg, r, s1, inbox, schedule);
    BeginsAnEpoch(cfg, r, s);
    HandleContinues(cfg, r, s1, inbox, schedule);
    LeadsTrans(Delivery.Next(cfg), s, s1, h.state);
    if !h.end.Waiting? {
      var s' := Do(cfg, h.state, Delivery.Drop(r));
      Delivery.OneMove(cfg, h.state, Delivery.Drop(r), s');
      LeadsTrans(Delivery.Next(cfg), s, h.state, s');
    }
  }

  /** `handle_connection` from a reachable state on.  sub and rdy are the fates of its first two commands; r
      is the place of its reader in the step system, whose moves it makes turn by turn: Begin, a Receive for
      every message, a Spawn as soon as there is a permit, Drop. */
  method HandleConnection(conn: Connection, topic: seq<byte>, channel: seq<byte>, sub: Fate, rdy: Fate,
                          schedule: seq<Event>, cfg: Delivery.Config, s: Delivery.State, r: nat)
    returns (h: Handled)
    requires -0x8000_0000 <= cfg.maxInFlight < 0x8000_0000
    requires Delivery.Reachable(cfg, s) && r < |s.readers| && s.readers[r].phase.Down?
    modifies conn`wire, conn`inbox
    ensures conn.inbox == h.rest
    ensures sub.Whole? && rdy.Whole? ==>
              && h == Connected(cfg, r, s, old(conn.inbox), schedule) && OneEpoch(cfg, r, s, h)
              && conn.wire == old(conn.wire) + EncodeAll(Subscription(cfg, topic, channel)) + h.out
    ensures !(sub.Whole? && rdy.Whole?) ==>
              && h == Handled([], [], Broken, old(conn.inbox), s)
              && old(conn.wire) <= conn.wire <= old(conn.wire) + EncodeAll(Subscription(cfg, topic, channel))
  {
    var ok := SubscribeTo(conn, cfg, topic, channel, sub, rdy);
    if !ok {
      return Handled([], [], Broken, conn.inbox, s);
    }
    DeliveryCredit.InvReachable(cfg, s);
    ConnectedIsOneEpoch(cfg, r, s, conn.inbox, schedule);
    h := Loop(conn, cfg, r, Do(cfg, s, Delivery.Begin(r)), schedule);
    if !h.end.Waiting? {
      h := h.(state := Do(cfg, h.state, Delivery.Drop(r)));
    }
  }
}
