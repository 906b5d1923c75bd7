/** From the frames a server sends to tasks: what the reader loop has done when it ends, or waits. */
module ReaderDelivery {
  import opened Tally
  import opened Transitions
  import opened Bytes
  import opened Commands
  import opened ConnectionImplementation
  import opened ReaderLoop
  import Frames
  import Delivery
  import DeliveryCredit

  function MessagesIn(fs: seq<Frames.Frame>): seq<Frames.Message> {
    if fs == [] then [] else MessageIn(fs[0]) + MessagesIn(fs[1..])
  }

  function Heartbeats(fs: seq<Frames.Frame>): nat {
    if fs == [] then 0 else Delivery.Bit(IsHeartbeat(fs[0])) + Heartbeats(fs[1..])
  }

  function Ticks(schedule: seq<Event>): nat {
    if schedule == [] then 0 else Delivery.Bit(schedule[0].Tick?) + Ticks(schedule[1..])
  }

  function Reads(schedule: seq<Event>): nat {
    if schedule == [] then 0 else Delivery.Bit(schedule[0].Incoming?) + Reads(schedule[1..])
  }

  /** n NOP commands. */
  function NopBytes(n: nat): seq<byte> {
    if n == 0 then [] else Encode(Nop) + NopBytes(n - 1)
  }

  predicate AllWhole(schedule: seq<Event>) {
    forall i :: 0 <= i < |schedule| ==> schedule[i].fate.Whole?
  }

  predicate AllSendable(fs: seq<Frames.Frame>) {
    forall i :: 0 <= i < |fs| ==> Frames.Sendable(fs[i])
  }

  predicate NoneFatal(fs: seq<Frames.Frame>, k: nat) {
    k <= |fs| && forall i :: 0 <= i < k ==> !Fatal(fs[i])
  }

  // ---------------------------------------------------------------- where the loop is

  /** With k frames read and this much of its schedule to come the loop stops: there is nothing to come and
      the other frames are unread, or it reads one more frame, which names E_INVALID, or is a message for
      which there is no permit. */
  predicate StopsAt(h: Handled, r: nat, fs: seq<Frames.Frame>, rest: seq<byte>, k: nat, toCome: seq<Event>)
    requires k <= |fs|
  {
    if h.end.Stopped? then toCome == [] && h.rest == Frames.EncodeFrames(fs[k..]) + rest
    else
      && toCome != [] && toCome[0].Incoming? && k < |fs| && h.rest == Frames.EncodeFrames(fs[k + 1..]) + rest
      && if Fatal(fs[k]) then h.end.Broken? else fs[k].MessageFrame? && h.end.Waiting? && !HasPermit(h.state, r)
  }

  /** What it has done by then: the messages of the frames read have their tasks, in order; each tick and
      each heartbeat is answered by one NOP. */
  predicate HasDone(h: Handled, fs: seq<Frames.Frame>, past: seq<Event>) {
    && NoneFatal(fs, Reads(past)) && h.delivered == MessagesIn(fs[..Reads(past)])
    && h.out == NopBytes(Ticks(past) + Heartbeats(fs[..Reads(past)]))
  }

  /** The loop has gone i events of its schedule, and stops there. */
  predicate IsAt(h: Handled, r: nat, fs: seq<Frames.Frame>, rest: seq<byte>, schedule: seq<Event>, i: nat) {
    && i <= |schedule| && HasDone(h, fs, schedule[..i])
    && StopsAt(h, r, fs, rest, Reads(schedule[..i]), schedule[i..])
  }

  lemma OneNop(b: nat, n: nat)
    requires b <= 1
    ensures NopBytes(b) + NopBytes(n) == NopBytes(b + n)
  {
    assert NopBytes(0) == [] && NopBytes(1) == Encode(Nop) + NopBytes(0);
    if b == 0 {
      assert [] + NopBytes(n) == NopBytes(n);
    } else {
      assert Encode(Nop) + [] == Encode(Nop);
    }
  }

  lemma FramesCons(fs: seq<Frames.Frame>, k: nat)
    requires 0 < k <= |fs|
    ensures MessagesIn(fs[..k]) == MessageIn(fs[0]) + MessagesIn(fs[1..][..k - 1])
    ensures Heartbeats(fs[..k]) == Delivery.Bit(IsHeartbeat(fs[0])) + Heartbeats(fs[1..][..k - 1])
  {
    assert fs[..k][1..] == fs[1..][..k - 1];
  }

  lemma DoneAtTick(h: Handled, fs: seq<Frames.Frame>, tick: Event, past: seq<Event>)
    requires tick.Tick? && HasDone(h, fs, past)
    ensures Reads([tick] + past) == Reads(past) && HasDone(After([], NopBytes(1), h), fs, [tick] + past)
  {
    assert ([tick] + past)[1..] == past;
    OneNop(1, Ticks(past) + Heartbeats(fs[..Reads(past)]));
    assert [] + h.delivered == h.delivered;
  }

  lemma DoneAtFrame(h: Handled, fs: seq<Frames.Frame>, event: Event, past: seq<Event>)
    requires fs != [] && !Fatal(fs[0]) && event.Incoming? && HasDone(h, fs[1..], past)
    ensures Reads([event] + past) == 1 + Reads(past)
    ensures HasDone(After(MessageIn(fs[0]), NopBytes(Delivery.Bit(IsHeartbeat(fs[0]))), h), fs, [event] + past)
  {
    assert ([event] + past)[1..] == past;
    FramesCons(fs, Reads(past) + 1);
    OneNop(Delivery.Bit(IsHeartbeat(fs[0])), Ticks(past) + Heartbeats(fs[1..][..Reads(past)]));
  }

  lemma StopsLater(h: Handled, r: nat, fs: seq<Frames.Frame>, rest: seq<byte>, k: nat, toCome: seq<Event>)
    requires fs != [] && k < |fs| && StopsAt(h, r, fs[1..], rest, k, toCome)
    ensures StopsAt(h, r, fs, rest, k + 1, toCome)
  {
    assert fs[1..][k..] == fs[k + 1..];
    if k + 1 < |fs| {
      assert fs[1..][k + 1..] == fs[k + 2..];
    }
  }

  lemma ScheduleCons(schedule: seq<Event>, i: nat)
    requires 0 < i <= |schedule|
    ensures schedule[..i] == [schedule[0]] + schedule[1..][..i - 1] && schedule[i..] == schedule[1..][i - 1..]
  {
  }

  lemma IsAtTick(h: Handled, r: nat, fs: seq<Frames.Frame>, rest: seq<byte>, schedule: seq<Event>, i: nat)
    requires schedule != [] && schedule[0].Tick? && IsAt(h, r, fs, rest, schedule[1..], i)
    ensures IsAt(After([], NopBytes(1), h), r, fs, rest, schedule, i + 1)
  {
    ScheduleCons(schedule, i + 1);
    DoneAtTick(h, fs, schedule[0], schedule[1..][..i]);
  }

  lemma IsAtFrame(h: Handled, r: nat, fs: seq<Frames.Frame>, rest: seq<byte>, schedule: seq<Event>, i: nat)
    requires fs != [] && !Fatal(fs[0]) && schedule != [] && schedule[0].Incoming?
    requires IsAt(h, r, fs[1..], rest, schedule[1..], i)
    ensures IsAt(After(MessageIn(fs[0]), NopBytes(Delivery.Bit(IsHeartbeat(fs[0]))), h), r, fs, rest, schedule, i + 1)
  {
    ScheduleCons(schedule, i + 1);
    DoneAtFrame(h, fs, schedule[0], schedule[1..][..i]);
    StopsLater(h, r, fs, rest, Reads(schedule[1..][..i]), schedule[1..][i..]);
  }

  lemma IsAtStart(h: Handled, r: nat, fs: seq<Frames.Frame>, rest: seq<byte>, schedule: seq<Event>)
    requires h.delivered == [] && h.out == []
    requires if schedule == [] then h.end.Stopped? && h.rest == Frames.EncodeFrames(fs) + rest
             else schedule[0].Incoming? && fs != [] && h.rest == Frames.EncodeFrames(fs[1..]) + rest
                  && if Fatal(fs[0]) then h.end.Broken?
                     else fs[0].MessageFrame? && h.end.Waiting? && !HasPermit(h.state, r)
    ensures IsAt(h, r, fs, rest, schedule, 0)
  {
    assert schedule[..0] == [] && fs[..0] == [] && fs[0..] == fs;
  }

  // ---------------------------------------------------------------- where it gets

  lemma HandleTick(cfg: Delivery.Config, r: nat, s: Delivery.State, inbox: seq<byte>, schedule: seq<Event>)
    requires schedule != [] && schedule[0].Tick? && schedule[0].fate.Whole?
    ensures Handle(cfg, r, s, inbox, schedule) ==
            After([], NopBytes(1), Handle(cfg, r, Others(cfg, r, s, schedule[0].others), inbox, schedule[1..]))
  {
    assert NopBytes(0) == [] && NopBytes(1) == Encode(Nop) + NopBytes(0) == Encode(Nop);
  }

  /** One turn that reads the first of some frames. */
  lemma HandleFrame(cfg: Delivery.Config, r: nat, s: Delivery.State, fs: seq<Frames.Frame>, rest: seq<byte>,
                    event: Event)
    requires fs != [] && Frames.Sendable(fs[0]) && event.Incoming? && event.fate.Whole?
    ensures var t := TurnOf(cfg, r, s, Frames.EncodeFrames(fs) + rest, event);
            && t.rest == Frames.EncodeFrames(fs[1..]) + rest
            && match t.end
               case None =>
                 && !Fatal(fs[0]) && t.message == MessageIn(fs[0])
                 && t.out == NopBytes(Delivery.Bit(IsHeartbeat(fs[0])))
               case Some(end) =>
                 && t.message == [] && t.out == []
                 && if Fatal(fs[0]) then end.Broken?
                    else fs[0].MessageFrame? && end.Waiting? && !HasPermit(t.state, r)
  {
    Frames.EncodeFramesStep(fs, rest);
    Frames.NextFrameRoundTrip(fs[0], Frames.EncodeFrames(fs[1..]) + rest);
    assert NopBytes(0) == [] && NopBytes(1) == Encode(Nop) + NopBytes(0) == Encode(Nop);
  }

  /** There is a frame for every read, or one that ends the loop. */
  predicate Enough(fs: seq<Frames.Frame>, schedule: seq<Event>) {
    Reads(schedule) <= |fs| || exists j :: 0 <= j < |fs| && Fatal(fs[j])
  }

  /** The first turn leaves enough frames for the others. */
  lemma EnoughBehind(cfg: Delivery.Config, r: nat, s: Delivery.State, fs: seq<Frames.Frame>, rest: seq<byte>,
                     schedule: seq<Event>)
    requires AllSendable(fs) && AllWhole(schedule) && Enough(fs, schedule) && schedule != []
    ensures AllWhole(schedule[1..]) && (schedule[0].Tick? ==> Enough(fs, schedule[1..]))
    ensures schedule[0].Incoming? ==>
              fs != [] && AllSendable(fs[1..])
              && (TurnOf(cfg, r, s, Frames.EncodeFrames(fs) + rest, schedule[0]).end.None? ==>
                    Enough(fs[1..], schedule[1..]))
  {
    if j :| 0 < j < |fs| && Fatal(fs[j]) {
      assert Fatal(fs[1..][j - 1]);
    }
    if schedule[0].Incoming? {
      HandleFrame(cfg, r, s, fs, rest, schedule[0]);
    }
  }

  lemma PastTick(cfg: Delivery.Config, r: nat, s: Delivery.State, fs: seq<Frames.Frame>, rest: seq<byte>,
                 schedule: seq<Event>, i: nat)
    requires schedule != [] && schedule[0].Tick? && schedule[0].fate.Whole?
    requires var s1 := Others(cfg, r, s, schedule[0].others);
             IsAt(Handle(cfg, r, s1, Frames.EncodeFrames(fs) + rest, schedule[1..]), r, fs, rest, schedule[1..], i)
    ensures IsAt(Handle(cfg, r, s, Frames.EncodeFrames(fs) + rest, schedule), r, fs, rest, schedule, i + 1)
  {
    var b, s1 := Frames.EncodeFrames(fs) + rest, Others(cfg, r, s, schedule[0].others);
    HandleTick(cfg, r, s, b, schedule);
    IsAtTick(Handle(cfg, r, s1, b, schedule[1..]), r, fs, rest, schedule, i);
  }

  lemma PastFrame(cfg: Delivery.Config, r: nat, s: Delivery.State, fs: seq<Frames.Frame>, rest: seq<byte>,
                  schedule: seq<Event>, i: nat)
    requires fs != [] && Frames.Sendable(fs[0])
    requires schedule != [] && schedule[0].Incoming? && schedule[0].fate.Whole?
    requires var t := TurnOf(cfg, r, s, Frames.EncodeFrames(fs) + rest, schedule[0]);
             t.end.None? && IsAt(Handle(cfg, r, t.state, Frames.EncodeFrames(fs[1..]) + rest, schedule[1..]), r,
                                 fs[1..], rest, schedule[1..], i)
    ensures IsAt(Handle(cfg, r, s, Frames.EncodeFrames(fs) + rest, schedule), r, fs, rest, schedule, i + 1)
  {
    var t := TurnOf(cfg, r, s, Frames.EncodeFrames(fs) + rest, schedule[0]);
    HandleFrame(cfg, r, s, fs, rest, schedule[0]);
    IsAtFrame(Handle(cfg, r, t.state, t.rest, schedule[1..]), r, fs, rest, schedule, i);
  }

  lemma EndsAtFrame(cfg: Delivery.Config, r: nat, s: Delivery.State, fs: seq<Frames.Frame>, rest: seq<byte>,
                    schedule: seq<Event>)
    requires fs != [] && Frames.Sendable(fs[0])
    requires schedule != [] && schedule[0].Incoming? && schedule[0].fate.Whole?
    requires TurnOf(cfg, r, s, Frames.EncodeFrames(fs) + rest, schedule[0]).end.Some?
    ensures IsAt(Handle(cfg, r, s, Frames.EncodeFrames(fs) + rest, schedule), r, fs, rest, schedule, 0)
  {
    HandleFrame(cfg, r, s, fs, rest, schedule[0]);
    IsAtStart(Handle(cfg, r, s, Frames.EncodeFrames(fs) + rest, schedule), r, fs, rest, schedule);
  }

  lemma {:induction false} GetsSomewhere(cfg: Delivery.Config, r: nat, s: Delivery.State, fs: seq<Frames.Frame>,
                                         rest: seq<byte>, schedule: seq<Event>)
    returns (i: nat)
    requires AllSendable(fs) && AllWhole(schedule) && Enough(fs, schedule)
    ensures IsAt(Handle(cfg, r, s, Frames.EncodeFrames(fs) + rest, schedule), r, fs, rest, schedule, i)
    decreases |schedule|
  {
    if schedule == [] {
      IsAtStart(Handle(cfg, r, s, Frames.EncodeFrames(fs) + rest, schedule), r, fs, rest, schedule);
      return 0;
    }
    EnoughBehind(cfg, r, s, fs, rest, schedule);
    if schedule[0].Tick? {
      i := GetsSomewhere(cfg, r, Others(cfg, r, s, schedule[0].others), fs, rest, schedule[1..]);
      PastTick(cfg, r, s, fs, rest, schedule, i);
      return i + 1;
    }
    var t := TurnOf(cfg, r, s, Frames.EncodeFrames(fs) + rest, schedule[0]);
    if t.end.Some? {
      EndsAtFrame(cfg, r, s, fs, rest, schedule);
      return 0;
    }
    i := GetsSomewhere(cfg, r, t.state, fs[1..], rest, schedule[1..]);
    PastFrame(cfg, r, s, fs, rest, schedule, i);
    return i + 1;
  }

  lemma {:induction false} ReadsBefore(schedule: seq<Event>, i: nat)
    requires i <= |schedule|
    ensures Reads(schedule[..i]) + Delivery.Bit(i < |schedule| && schedule[i].Incoming?) <= Reads(schedule)
    ensures i == |schedule| ==> Reads(schedule[..i]) == Reads(schedule)
  {
    if i == 0 {
      assert schedule[..0] == [];
    } else {
      assert schedule[..i][1..] == schedule[1..][..i - 1];
      ReadsBefore(schedule[1..], i - 1);
    }
  }

  // ---------------------------------------------------------------- permits

  lemma {:induction false} WaitsWithout(cfg: Delivery.Config, r: nat, s: Delivery.State, inbox: seq<byte>,
                                        schedule: seq<Event>)
    requires Handle(cfg, r, s, inbox, schedule).end.Waiting?
    ensures !HasPermit(Handle(cfg, r, s, inbox, schedule).state, r)
    ensures |Handle(cfg, r, s, inbox, schedule).delivered| < Reads(schedule)
    decreases |schedule|
  {
    var t := TurnOf(cfg, r, s, inbox, schedule[0]);
    if t.end.None? {
      WaitsWithout(cfg, r, t.state, t.rest, schedule[1..]);
    }
  }

  /** The loop waits only when as many tasks of its connection are live as there are handlers, whatever
      arrived and whatever the others did. */
  lemma WaitsWhenFull(cfg: Delivery.Config, r: nat, s: Delivery.State, inbox: seq<byte>, schedule: seq<Event>)
    requires Delivery.Reachable(cfg, s) && r < |s.readers| && s.readers[r].phase.Down?
    ensures var h := Connected(cfg, r, s, inbox, schedule);
            h.end.Waiting? ==> Sum(h.state.tasks, Delivery.LiveAt(r)) == cfg.Permits()
  {
    var h := Connected(cfg, r, s, inbox, schedule);
    if h.end.Waiting? {
      DeliveryCredit.InvReachable(cfg, s);
      ConnectedIsOneEpoch(cfg, r, s, inbox, schedule);
      WaitsWithout(cfg, r, Do(cfg, s, Delivery.Begin(r)), inbox, schedule);
      LeadsTrans(Delivery.Next(cfg), Delivery.Idle, s, h.state);
      DeliveryCredit.InvReachable(cfg, h.state);
      assert DeliveryCredit.PermitInv(cfg, h.state, r);
    }
  }

  /** With a permit for every read it never waits. */
  lemma EnoughPermits(cfg: Delivery.Config, r: nat, s: Delivery.State, inbox: seq<byte>, schedule: seq<Event>)
    requires Up(s, r, Delivery.Reading) && s.readers[r].permits >= Reads(schedule)
    ensures !Handle(cfg, r, s, inbox, schedule).end.Waiting?
  {
    if Handle(cfg, r, s, inbox, schedule).end.Waiting? {
      HandleContinues(cfg, r, s, inbox, schedule);
      WaitsWithout(cfg, r, s, inbox, schedule);
    }
  }

  // ---------------------------------------------------------------- end to end

  lemma StopsOrWaits(h: Handled, r: nat, fs: seq<Frames.Frame>, rest: seq<byte>, schedule: seq<Event>, i: nat)
    requires IsAt(h, r, fs, rest, schedule, i) && NoneFatal(fs, Reads(schedule))
    ensures h.end.Stopped? || h.end.Waiting?
  {
    ReadsBefore(schedule, i);
  }

  /** From the server's frames to the handler, with a frame for every read and no fatal one: the messages
      are delivered in order and every heartbeat is answered.  If the loop does not come to its end then it
      has delivered all messages before the one it holds, for which there is no permit. */
  lemma DeliversWhatWasSent(cfg: Delivery.Config, r: nat, s: Delivery.State, fs: seq<Frames.Frame>, rest: seq<byte>,
                            schedule: seq<Event>)
    requires AllSendable(fs) && NoneFatal(fs, Reads(schedule)) && AllWhole(schedule)
    ensures var h := Handle(cfg, r, s, Frames.EncodeFrames(fs) + rest, schedule);
            (h.end.Stopped? || h.end.Waiting?) && exists i :: 0 <= i <= |schedule| && IsAt(h, r, fs, rest, schedule, i)
    ensures Up(s, r, Delivery.Reading) && s.readers[r].permits >= Reads(schedule) ==>
              Handle(cfg, r, s, Frames.EncodeFrames(fs) + rest, schedule).end.Stopped?
  {
    var h := Handle(cfg, r, s, Frames.EncodeFrames(fs) + rest, schedule);
    var i := GetsSomewhere(cfg, r, s, fs, rest, schedule);
    StopsOrWaits(h, r, fs, rest, schedule, i);
    if Up(s, r, Delivery.Reading) && s.readers[r].permits >= Reads(schedule) {
      EnoughPermits(cfg, r, s, Frames.EncodeFrames(fs) + rest, schedule);
      assert h.end.Stopped?;
    }
  }

  /** An error frame that names E_INVALID ends the loop: what came before is delivered, what comes behind
      stays unread; unless the loop still waits for a permit for a message before it. */
  lemma FatalEnds(cfg: Delivery.Config, r: nat, s: Delivery.State, fs: seq<Frames.Frame>, rest: seq<byte>,
                  schedule: seq<Event>, j: nat)
    requires AllSendable(fs) && j < |fs| && j < Reads(schedule) && NoneFatal(fs, j) && Fatal(fs[j])
    requires AllWhole(schedule)
    ensures var h := Handle(cfg, r, s, Frames.EncodeFrames(fs) + rest, schedule);
            exists i :: 0 <= i < |schedule| && IsAt(h, r, fs, rest, schedule, i)
                        && if h.end.Broken? then Reads(schedule[..i]) == j
                           else h.end.Waiting? && Reads(schedule[..i]) < j
  {
    var i := GetsSomewhere(cfg, r, s, fs, rest, schedule);
    ReadsBefore(schedule, i);
  }

  /** A message frame whose payload is too short to decode, 4 to 25 bytes, crashes the loop. */
  lemma ShortMessageCrashes(cfg: Delivery.Config, r: nat, s: Delivery.State, payload: seq<byte>, rest: seq<byte>,
                            schedule: seq<Event>)
    requires schedule != [] && schedule[0].Incoming? && |payload| < 26
    ensures Handle(cfg, r, s, BigEndian(4 + |payload|, 4) + BigEndian(2, 4) + payload + rest, schedule).end ==
              if |payload| >= 4 then End.Crashed else Broken
  {
    Power256Four();
    BigEndianExact(4 + |payload|, 4);
    BigEndianExact(2, 4);
    Frames.FourParts(BigEndian(4 + |payload|, 4), BigEndian(2, 4), payload, rest);
    var b := BigEndian(4 + |payload|, 4) + BigEndian(2, 4) + payload + rest;
    assert Frames.TakeU32(b, 0) == 4 + |payload| && Frames.TakeU32(b, 4) == 2;
    assert b[4..4 + (4 + |payload|)][0..4] == BigEndian(2, 4) && b[4..4 + (4 + |payload|)][4..] == payload;
  }
}
