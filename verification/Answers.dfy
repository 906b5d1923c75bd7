/** A message's own answers, and the spawned task that carries it through its handler, as the source runs them.
    `Delivery` interleaves the steps of many such tasks; here one task runs without interruption, and every
    step it takes is one of that system. */
module AnswersImplementation {
  import opened Tally
  import opened Transitions
  import opened Bytes
  import opened Commands
  import opened ConnectionImplementation
  import CommandParser
  import Delivery

  /** What all clones of a message share. conn is null for a message that was not received. */
  class Message {
    const id: seq<byte>
    const conn: Connection?
    var responded: bool

    constructor (id: seq<byte>, conn: Connection?)
      ensures this.id == id && this.conn == conn && !responded
    {
      this.id, this.conn, responded := id, conn, false;
    }

    /** `finish` and `requeue`: the first one wins the flag, whether its command gets out or not, and the
        others do nothing and report success. */
    method Answer(command: Command, fate: Fate) returns (ok: bool)
      requires command == Finish(id) || exists delay :: command == Requeue(id, delay)
      modifies this`responded, if conn == null then {} else {conn}
      ensures responded
      ensures old(responded) ==> ok && (conn != null ==> conn.wire == old(conn.wire))
      ensures !old(responded) && conn == null ==> !ok
      ensures !old(responded) && conn != null ==> ok == fate.Whole?
      ensures conn != null ==> conn.inbox == old(conn.inbox)
      ensures !old(responded) && conn != null ==> conn.wire == old(conn.wire) + Out(Encode(command), fate)
    {
      if responded {
        return true;
      }
      responded := true;
      if conn == null {
        return false;
      }
      ok := conn.SendCommand(command, fate);
    }

    /** `touch` does nothing to an answered message, and never answers one. */
    method TouchIt(fate: Fate) returns (ok: bool)
      modifies if conn == null then {} else {conn}
      ensures responded == old(responded)
      ensures ok <==> responded || (conn != null && fate.Whole?)
      ensures conn != null ==>
                conn.inbox == old(conn.inbox) &&
                conn.wire == if responded then old(conn.wire) else old(conn.wire) + Out(Encode(Touch(id)), fate)
    {
      if responded {
        return true;
      }
      if conn == null {
        return false;
      }
      ok := conn.SendCommand(Touch(id), fate);
    }
  }

  // ---------------------------------------------------------------- one task

  datatype Verdict = Accepts | Rejects | Panics

  function TaskNext(cfg: Delivery.Config):
    ((Delivery.Task, Delivery.Epoch), Delivery.Action) -> Option<(Delivery.Task, Delivery.Epoch)>
  {
    (te: (Delivery.Task, Delivery.Epoch), a) => Delivery.TaskStep(cfg, te.0, te.1, a)
  }

  /** A task that starts with epoch e can come to t and e'. */
  ghost predicate Comes(cfg: Delivery.Config, e: Delivery.Epoch, t: Delivery.Task, e': Delivery.Epoch) {
    Leads(TaskNext(cfg), (Delivery.NewTask(0, 0), e), (t, e'))
  }

  lemma ComesNow(cfg: Delivery.Config, e: Delivery.Epoch)
    ensures Comes(cfg, e, Delivery.NewTask(0, 0), e)
  {
    LeadsRefl(TaskNext(cfg), (Delivery.NewTask(0, 0), e));
  }

  lemma ComesNext(cfg: Delivery.Config, e: Delivery.Epoch, t: Delivery.Task, f: Delivery.Epoch, a: Delivery.Action,
               t': Delivery.Task, f': Delivery.Epoch)
    requires Comes(cfg, e, t, f) && Delivery.TaskStep(cfg, t, f, a) == Some((t', f'))
    ensures Comes(cfg, e, t', f')
  {
    LeadsStep(TaskNext(cfg), (Delivery.NewTask(0, 0), e), (t, f), a);
  }

  function AnswerCommand(id: seq<byte>, a: Delivery.Answer, delay: u32): Command {
    match a case Fin => Finish(id) case Req => Requeue(id, delay)
  }

  /** What a handler does to its message before it returns. */
  datatype Reply = Reply(answer: Delivery.Answer, delay: u32, fate: Fate)

  /** Where the automatic answer and the counters lead a task whose handler has returned. */
  function Settled(cfg: Delivery.Config, t: Delivery.Task, ok: bool, sent: bool): Delivery.Task {
    var counted := Delivery.AtRdy(if ok then Delivery.Finished else Delivery.Requeued);
    if cfg.auto && !t.responded then
      t.(pc := if sent then counted else Delivery.Ended(Delivery.SendFailed),
         answers := t.answers + [Delivery.AnswerTo(ok)], auto := true)
    else t.(pc := if t.responded then counted else Delivery.AtRdy(Delivery.Unanswered))
  }

  lemma ComesToSettled(cfg: Delivery.Config, begun: Delivery.Epoch, t: Delivery.Task, e: Delivery.Epoch,
                       ok: bool, sent: bool)
    requires Comes(cfg, begun, t, e) && t.pc.Handling? && t.owed.None? && !t.OwnDisabled()
    ensures Comes(cfg, begun, Settled(cfg, t, ok, sent), e)
  {
    var returned := t.(pc := Delivery.Returned(ok));
    ComesNext(cfg, begun, t, e, Delivery.Return(ok), returned, e);
    if cfg.auto && !t.responded {
      var answering := t.(pc := Delivery.Answering(ok));
      ComesNext(cfg, begun, returned, e, Delivery.Check, answering, e);
      var answered := t.(pc := if sent then Delivery.Counting(ok) else Delivery.Ended(Delivery.SendFailed),
                         answers := t.answers + [Delivery.AnswerTo(ok)], auto := true);
      ComesNext(cfg, begun, answering, e, Delivery.AutoSend(sent), answered, e);
      if sent {
        ComesNext(cfg, begun, answered, e, Delivery.Count, Settled(cfg, t, ok, sent), e);
      }
    } else if t.responded {
      var counting := t.(pc := Delivery.Counting(ok));
      ComesNext(cfg, begun, returned, e, Delivery.Check, counting, e);
      ComesNext(cfg, begun, counting, e, Delivery.Count, Settled(cfg, t, ok, sent), e);
    } else {
      ComesNext(cfg, begun, returned, e, Delivery.Check, Settled(cfg, t, ok, sent), e);
    }
  }

  /** What the RDY step makes of the credit. */
  function Replenished(cfg: Delivery.Config, e: Delivery.Epoch, sent: bool): Delivery.Epoch {
    var lower := e.(rdy := e.rdy - 1, steps := e.steps + 1);
    if e.rdy - 1 > cfg.Half() then lower
    else if sent then lower.(sends := e.sends + 1, rdy := cfg.maxInFlight)
    else lower.(failed := e.failed + 1)
  }

  lemma ComesToEnd(cfg: Delivery.Config, begun: Delivery.Epoch, t: Delivery.Task, e: Delivery.Epoch, sent: bool)
    requires Comes(cfg, begun, t, e) && t.pc.AtRdy?
    ensures Comes(cfg, begun, t.(pc := Delivery.Ended(t.pc.outcome)), Replenished(cfg, e, sent))
  {
    var lower := e.(rdy := e.rdy - 1, steps := e.steps + 1);
    var end := t.(pc := Delivery.Ended(t.pc.outcome));
    if e.rdy - 1 > cfg.Half() {
      ComesNext(cfg, begun, t, e, Delivery.Decrement, end, lower);
    } else {
      var refilling := t.(pc := Delivery.Refilling(t.pc.outcome));
      ComesNext(cfg, begun, t, e, Delivery.Decrement, refilling, lower);
      if sent {
        var storing := t.(pc := Delivery.Storing(t.pc.outcome));
        ComesNext(cfg, begun, refilling, lower, Delivery.Refill(true), storing, lower.(sends := e.sends + 1));
        ComesNext(cfg, begun, storing, lower.(sends := e.sends + 1), Delivery.Store, end, Replenished(cfg, e, sent));
      } else {
        ComesNext(cfg, begun, refilling, lower, Delivery.Refill(false), end, Replenished(cfg, e, sent));
      }
    }
  }

  /** The part of a connection's handler that its tasks share. epoch is the history of the credit, sent that
      of the commands, start what was on the wire before them. */
  class Handler {
    const cfg: Delivery.Config
    const conn: Connection
    var rdyCount: int
    var messagesFinished: nat
    var messagesRequeued: nat
    ghost var epoch: Delivery.Epoch
    ghost var sent: seq<Command>
    ghost const start: seq<byte>

    constructor (cfg: Delivery.Config, conn: Connection, epoch: Delivery.Epoch)
      ensures this.cfg == cfg && this.conn == conn && this.epoch == epoch && rdyCount == epoch.rdy
      ensures messagesFinished == 0 && messagesRequeued == 0 && sent == [] && Clean()
    {
      this.cfg, this.conn, this.epoch, rdyCount := cfg, conn, epoch, epoch.rdy;
      messagesFinished, messagesRequeued := 0, 0;
      sent, start := [], conn.wire;
    }

    /** What is on the wire are the commands sent, each whole. */
    ghost predicate Clean()
      reads this, conn
    {
      conn.wire == start + EncodeAll(sent)
    }

    method Transmit(c: Command, fate: Fate) returns (ok: bool)
      modifies this`sent, conn`wire
      ensures ok == fate.Whole? && sent == old(sent) + [c]
      ensures ok && old(Clean()) ==> Clean()
    {
      Behind(start, sent, c);
      ok := conn.SendCommand(c, fate);
      sent := sent + [c];
    }

    /** The handler, and what it does to its message before it returns. */
    method Handle(msg: Message, plan: Option<Reply>) returns (ghost t: Delivery.Task)
      requires msg.conn == conn && !msg.responded
      modifies this`sent, msg`responded, conn
      ensures Comes(cfg, epoch, t, epoch) && t.pc.Handling? && t.owed.None? && !t.OwnDisabled()
      ensures msg.responded == t.responded == plan.Some?
      ensures t.answers == if plan.Some? then [plan.value.answer] else []
      ensures sent == old(sent) +
                      if plan.Some? then [AnswerCommand(msg.id, plan.value.answer, plan.value.delay)] else []
      ensures old(Clean()) && (plan.Some? ==> plan.value.fate.Whole?) ==> Clean()
    {
      t := Delivery.NewTask(0, 0);
      ComesNow(cfg, epoch);
      if plan.Some? {
        var Reply(answer, delay, fate) := plan.value;
        ghost var claimed := t.(responded := true, owed := Some(answer), claimed := Some(answer));
        ghost var done := claimed.(owed := None, answers := [answer]);
        ComesNext(cfg, epoch, t, epoch, Delivery.Claim(answer), claimed, epoch);
        assert claimed.answers + [answer] == [answer];
        ComesNext(cfg, epoch, claimed, epoch, Delivery.CloneSend, done, epoch);
        t := done;
        var c := AnswerCommand(msg.id, answer, delay);
        Behind(start, sent, c);
        var ok := msg.Answer(c, fate);
        sent := sent + [c];
      }
    }

    /** What follows the handler: the automatic answer, unless there was one, and the counters. */
    method Conclude(msg: Message, ghost t0: Delivery.Task, ok: bool, fate: Fate)
      returns (ghost t: Delivery.Task, going: bool)
      requires msg.conn == conn && msg.responded == t0.responded
      modifies this`messagesFinished, this`messagesRequeued, this`sent, conn`wire
      ensures t == Settled(cfg, t0, ok, fate.Whole?) && (going <==> t.pc.AtRdy?)
      ensures messagesFinished == old(messagesFinished) + if t.pc.outcome.Finished? then 1 else 0
      ensures messagesRequeued == old(messagesRequeued) + if t.pc.outcome.Requeued? then 1 else 0
      ensures sent == old(sent) +
                      if cfg.auto && !msg.responded then [AnswerCommand(msg.id, Delivery.AnswerTo(ok), 0)] else []
      ensures fate.Whole? && old(Clean()) ==> Clean()
    {
      t := Settled(cfg, t0, ok, fate.Whole?);
      if cfg.auto && !msg.responded {
        var out := Transmit(AnswerCommand(msg.id, Delivery.AnswerTo(ok), 0), fate);
        if !out {
          return t, false;
        }
        Count(ok);
      } else if msg.responded {
        Count(ok);
      }
      going := true;
    }

    method Count(ok: bool)
      modifies this`messagesFinished, this`messagesRequeued
      ensures messagesFinished == old(messagesFinished) + if ok then 1 else 0
      ensures messagesRequeued == old(messagesRequeued) + if ok then 0 else 1
    {
      if ok {
        messagesFinished := messagesFinished + 1;
      } else {
        messagesRequeued := messagesRequeued + 1;
      }
    }

    /** The RDY step. */
    method Replenish(fate: Fate)
      requires rdyCount == epoch.rdy && -0x8000_0000 <= cfg.maxInFlight < 0x8000_0000
      modifies this`rdyCount, this`epoch, this`sent, conn`wire
      ensures epoch == Replenished(cfg, old(epoch), fate.Whole?) && rdyCount == epoch.rdy
      ensures sent == old(sent) + if old(epoch).rdy - 1 <= cfg.Half() then [Ready(AsU32(cfg.maxInFlight))] else []
      ensures fate.Whole? && old(Clean()) ==> Clean()
    {
      epoch := Replenished(cfg, epoch, fate.Whole?);
      rdyCount := rdyCount - 1;
      var remaining := rdyCount;
      if remaining <= cfg.Half() {
        var out := Transmit(Ready(AsU32(cfg.maxInFlight)), fate);
        if out {
          rdyCount := cfg.maxInFlight;
        }
      }
    }

    /** The spawned task.  Its steps lead to t, which has ended; the counters and the credit are those t
        stands for, and the commands sent are its answer and the refill, if there was one.  The answer is the
        handler's own, or else the one that goes with its verdict. */
    method Run(msg: Message, plan: Option<Reply>, verdict: Verdict, answerFate: Fate, rdyFate: Fate)
      returns (ghost t: Delivery.Task)
      requires msg.conn == conn && !msg.responded && rdyCount == epoch.rdy
      requires -0x8000_0000 <= cfg.maxInFlight < 0x8000_0000
      modifies this`rdyCount, this`messagesFinished, this`messagesRequeued, this`epoch, this`sent, msg`responded, conn
      ensures Comes(cfg, old(epoch), t, epoch) && t.pc.Ended? && rdyCount == epoch.rdy
      ensures Answered(cfg, t, plan, verdict) && Ends(cfg, t.pc.outcome, plan, verdict, answerFate)
      ensures messagesFinished == old(messagesFinished) + if t.pc.outcome.Finished? then 1 else 0
      ensures messagesRequeued == old(messagesRequeued) + if t.pc.outcome.Requeued? then 1 else 0
      ensures sent == old(sent) + AnswersSent(msg.id, t, plan)
                      + if epoch.sends + epoch.failed > old(epoch).sends + old(epoch).failed
                        then [Ready(AsU32(cfg.maxInFlight))] else []
      ensures old(Clean()) && (plan.Some? ==> plan.value.fate.Whole?) && answerFate.Whole? && rdyFate.Whole? ==> Clean()
    {
      var going;
      t, going := Settle(msg, plan, verdict, answerFate);
      if going {
        ComesToEnd(cfg, epoch, t, epoch, rdyFate.Whole?);
        t := t.(pc := Delivery.Ended(t.pc.outcome));
        Replenish(rdyFate);
      }
    }

    /** Up to the RDY step. */
    method Settle(msg: Message, plan: Option<Reply>, verdict: Verdict, fate: Fate)
      returns (ghost t: Delivery.Task, going: bool)
      requires msg.conn == conn && !msg.responded
      modifies this`messagesFinished, this`messagesRequeued, this`sent, msg`responded, conn
      ensures Comes(cfg, epoch, t, epoch) && if going then t.pc.AtRdy? else t.pc.Ended?
      ensures Answered(cfg, t, plan, verdict) && Ends(cfg, t.pc.outcome, plan, verdict, fate)
      ensures messagesFinished == old(messagesFinished) + if t.pc.outcome.Finished? then 1 else 0
      ensures messagesRequeued == old(messagesRequeued) + if t.pc.outcome.Requeued? then 1 else 0
      ensures sent == old(sent) + AnswersSent(msg.id, t, plan)
      ensures old(Clean()) && (plan.Some? ==> plan.value.fate.Whole?) && fate.Whole? ==> Clean()
    {
      t := Handle(msg, plan);
      if verdict.Panics? {
        ghost var ended := t.(pc := Delivery.Ended(Delivery.Panicked));
        ComesNext(cfg, epoch, t, epoch, Delivery.Panic, ended, epoch);
        t, going := ended, false;
      } else {
        ComesToSettled(cfg, epoch, t, epoch, verdict.Accepts?, fate.Whole?);
        t, going := Conclude(msg, t, verdict.Accepts?, fate);
      }
    }
  }

  /** Which answer is attempted: the handler's own, or else FIN for Ok and REQ for an error, if answers are
      automatic; and none after a panic. */
  predicate Answered(cfg: Delivery.Config, t: Delivery.Task, plan: Option<Reply>, verdict: Verdict) {
    && (plan.Some? ==> t.answers == [plan.value.answer])
    && (plan.None? && cfg.auto && verdict.Accepts? ==> t.answers == [Delivery.Fin])
    && (plan.None? && cfg.auto && verdict.Rejects? ==> t.answers == [Delivery.Req])
    && (plan.None? && (!cfg.auto || verdict.Panics?) ==> t.answers == [])
  }

  /** And how the message ends: counted by the verdict, unless nobody answered, the automatic answer was cut
      or the handler panicked. */
  predicate Ends(cfg: Delivery.Config, o: Delivery.Outcome, plan: Option<Reply>, verdict: Verdict, fate: Fate) {
    && (o.Panicked? <==> verdict.Panics?)
    && (o.SendFailed? <==> !verdict.Panics? && plan.None? && cfg.auto && fate.Cut?)
    && (o.Unanswered? <==> !verdict.Panics? && plan.None? && !cfg.auto)
    && (o.Finished? ==> verdict.Accepts?)
    && (o.Requeued? ==> verdict.Rejects?)
  }

  /** The commands for the answers of t; the automatic REQ has no delay. */
  function AnswersSent(id: seq<byte>, t: Delivery.Task, plan: Option<Reply>): seq<Command> {
    seq(|t.answers|, i requires 0 <= i < |t.answers| =>
      AnswerCommand(id, t.answers[i], if plan.Some? then plan.value.delay else 0))
  }

  lemma Behind(start: seq<byte>, sent: seq<Command>, c: Command)
    ensures (start + EncodeAll(sent)) + Encode(c) == start + EncodeAll(sent + [c])
  {
    CommandParser.EncodeAllConcat(sent, [c]);
    EncodeOne(c);
  }
}
