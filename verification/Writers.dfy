/** Tasks that write to one connection at the same time: `write_bytes` holds the write lock while the
    bytes of one command go out in pieces of any size. */
module Writers {
  import opened Tally
  import opened Transitions
  import opened Bytes
  import opened Commands
  import opened CommandParser
  import opened ConnectionImplementation

  type TaskId = nat

  datatype Writer =
    | Free
    | Waiting(command: Command)                       // for the write lock
    | Writing(command: Command, left: seq<byte>)      // holds it

  /** What went out for one command. */
  datatype Entry = Entry(task: TaskId, command: Command, bytes: seq<byte>)

  /** calls and log are history: what every task asked for, and what got the lock, in order. */
  datatype State = State(wire: seq<byte>, lock: Option<TaskId>, writers: seq<Writer>,
                         calls: seq<seq<Command>>, log: seq<Entry>)

  datatype Move =
    | Call(t: TaskId, command: Command)
    | Acquire(t: TaskId)
    | Out(t: TaskId, n: nat)    // the next n bytes
    | Finished(t: TaskId)
    | Cut(t: TaskId)            // a time-out or an error ends the write

  function Wrote(log: seq<Entry>, bytes: seq<byte>): seq<Entry>
    requires log != []
  {
    var last := log[|log| - 1];
    log[..|log| - 1] + [last.(bytes := last.bytes + bytes)]
  }

  function Step(s: State, m: Move): Option<State> {
    if m.t >= |s.writers| || m.t >= |s.calls| then None
    else
      var w := s.writers[m.t];
      match m
      case Call(t, c) =>
        if w.Free? then
          Some(s.(writers := s.writers[t := Waiting(c)], calls := s.calls[t := s.calls[t] + [c]]))
        else None
      case Acquire(t) =>
        if w.Waiting? && s.lock.None? then
          Some(s.(lock := Some(t), writers := s.writers[t := Writing(w.command, Encode(w.command))],
                  log := s.log + [Entry(t, w.command, [])]))
        else None
      case Out(t, n) =>
        if w.Writing? && 0 < n <= |w.left| && s.log != [] then
          Some(s.(wire := s.wire + w.left[..n], writers := s.writers[t := w.(left := w.left[n..])],
                  log := Wrote(s.log, w.left[..n])))
        else None
      case Finished(t) =>
        if w.Writing? && w.left == [] then
          Some(s.(lock := None, writers := s.writers[t := Free]))
        else None
      case Cut(t) =>
        if w.Writing? && w.left != [] then
          Some(s.(lock := None, writers := s.writers[t := Free]))
        else None
  }

  /** The wire after the handshake. */
  function HelloWire(json: seq<byte>, secret: Option<seq<byte>>): seq<byte> {
    MAGIC_V2 + EncodeAll(Hello(json, secret))
  }

  predicate Init(s: State, json: seq<byte>, secret: Option<seq<byte>>) {
    && s.wire == HelloWire(json, secret) && s.lock.None? && s.log == []
    && |s.calls| == |s.writers|
    && (forall t :: 0 <= t < |s.writers| ==> s.writers[t] == Free && s.calls[t] == [])
  }

  ghost predicate Reachable(s: State, json: seq<byte>, secret: Option<seq<byte>>) {
    exists i: State :: Init(i, json, secret) && Leads(Step, i, s)
  }

  // ---------------------------------------------------------------- what the log says

  function CommandsOf(log: seq<Entry>): seq<Command> {
    if log == [] then [] else CommandsOf(log[..|log| - 1]) + [log[|log| - 1].command]
  }

  function CommandsBy(log: seq<Entry>, t: TaskId): seq<Command> {
    if log == [] then []
    else
      var last := log[|log| - 1];
      CommandsBy(log[..|log| - 1], t) + if last.task == t then [last.command] else []
  }

  function BytesOf(log: seq<Entry>): seq<byte> {
    if log == [] then [] else BytesOf(log[..|log| - 1]) + log[|log| - 1].bytes
  }

  predicate IsPrefix(a: seq<byte>, b: seq<byte>) {
    |a| <= |b| && b[..|a|] == a
  }

  predicate Complete(e: Entry) {
    e.bytes == Encode(e.command)
  }

  predicate AllComplete(log: seq<Entry>) {
    forall i :: 0 <= i < |log| ==> Complete(log[i])
  }

  function Still(w: Writer): seq<Command> {
    if w.Waiting? then [w.command] else []
  }

  // ---------------------------------------------------------------- the invariant

  /** Only the holder of the lock writes, and it writes the last entry of the log. */
  ghost predicate LockInv(s: State) {
    && (forall t: TaskId :: t < |s.writers| && s.writers[t].Writing? ==> s.lock == Some(t))
    && (s.lock.Some? ==>
          && s.lock.value < |s.writers| && s.writers[s.lock.value].Writing? && s.log != []
          && var w, last := s.writers[s.lock.value], s.log[|s.log| - 1];
             last.task == s.lock.value && last.command == w.command && last.bytes + w.left == Encode(w.command))
  }

  ghost predicate OrderInv(s: State) {
    && |s.calls| == |s.writers|
    && (forall t: TaskId :: t < |s.writers| ==> CommandsBy(s.log, t) + Still(s.writers[t]) == s.calls[t])
  }

  ghost predicate WireInv(s: State, hello: seq<byte>) {
    && s.wire == hello + BytesOf(s.log)
    && Prefixes(s.log)
  }

  ghost predicate Inv(s: State, hello: seq<byte>) {
    LockInv(s) && OrderInv(s) && WireInv(s, hello)
  }

  lemma AppendEntry(log: seq<Entry>, e: Entry)
    ensures CommandsOf(log + [e]) == CommandsOf(log) + [e.command]
    ensures forall t :: CommandsBy(log + [e], t) == CommandsBy(log, t) + if e.task == t then [e.command] else []
    ensures BytesOf(log + [e]) == BytesOf(log) + e.bytes
  {
    assert (log + [e])[..|log|] == log;
  }

  lemma WroteLast(log: seq<Entry>, bytes: seq<byte>)
    requires log != []
    ensures BytesOf(Wrote(log, bytes)) == BytesOf(log) + bytes
    ensures forall t :: CommandsBy(Wrote(log, bytes), t) == CommandsBy(log, t)
    ensures CommandsOf(Wrote(log, bytes)) == CommandsOf(log)
  {
    var most, last := log[..|log| - 1], log[|log| - 1];
    assert log == most + [last];
    AppendEntry(most, last);
    AppendEntry(most, last.(bytes := last.bytes + bytes));
  }

  lemma LockStep(s: State, m: Move)
    requires LockInv(s) && Step(s, m).Some?
    ensures LockInv(Step(s, m).value)
  {
    if m.Out? {
      var w, last := s.writers[m.t], s.log[|s.log| - 1];
      assert last.bytes + w.left == (last.bytes + w.left[..m.n]) + w.left[m.n..];
    }
  }

  /** What a move does to the log and the wire. */
  lemma LogStep(s: State, m: Move)
    requires LockInv(s) && Step(s, m).Some?
    ensures var s' := Step(s, m).value;
            match m
            case Acquire(t) => s'.log == s.log + [Entry(t, s.writers[t].command, [])] && s'.wire == s.wire
            case Out(t, n) =>
              && s.writers[t].Writing? && n <= |s.writers[t].left| && s.log != []
              && s'.log == Wrote(s.log, s.writers[t].left[..n]) && s'.wire == s.wire + s.writers[t].left[..n]
            case _ => s'.log == s.log && s'.wire == s.wire
  {
  }

  /** What it does to the writer and its calls. */
  lemma CallStep(s: State, m: Move)
    requires LockInv(s) && Step(s, m).Some? && |s.calls| == |s.writers|
    ensures var s' := Step(s, m).value;
            && |s'.calls| == |s'.writers| == |s.writers|
            && (forall t: TaskId :: t < |s.writers| && t != m.t ==>
                  s'.calls[t] == s.calls[t] && s'.writers[t] == s.writers[t])
            && match m
               case Call(t, c) =>
                 && Still(s.writers[t]) == [] && Still(s'.writers[t]) == [c]
                 && s'.calls[t] == s.calls[t] + [c]
               case Acquire(t) =>
                 && Still(s.writers[t]) == [s.writers[t].command] && Still(s'.writers[t]) == []
                 && s'.calls[t] == s.calls[t]
               case _ => Still(s'.writers[m.t]) == Still(s.writers[m.t]) && s'.calls[m.t] == s.calls[m.t]
  {
  }

  lemma OrderStep(s: State, m: Move)
    requires LockInv(s) && OrderInv(s) && Step(s, m).Some?
    ensures OrderInv(Step(s, m).value)
  {
    var s' := Step(s, m).value;
    LogStep(s, m);
    CallStep(s, m);
    if m.Acquire? {
      AppendEntry(s.log, Entry(m.t, s.writers[m.t].command, []));
    } else if m.Out? {
      WroteLast(s.log, s.writers[m.t].left[..m.n]);
    }
    forall t: TaskId | t < |s'.writers|
      ensures CommandsBy(s'.log, t) + Still(s'.writers[t]) == s'.calls[t]
    {
      assert CommandsBy(s.log, t) + Still(s.writers[t]) == s.calls[t];
    }
  }

  lemma BytesStep(s: State, m: Move, hello: seq<byte>)
    requires LockInv(s) && s.wire == hello + BytesOf(s.log) && Step(s, m).Some?
    ensures Step(s, m).value.wire == hello + BytesOf(Step(s, m).value.log)
  {
    LogStep(s, m);
    if m.Acquire? {
      AppendEntry(s.log, Entry(m.t, s.writers[m.t].command, []));
      assert BytesOf(s.log) + [] == BytesOf(s.log);
    } else if m.Out? {
      var bytes := s.writers[m.t].left[..m.n];
      WroteLast(s.log, bytes);
      Associative(hello, BytesOf(s.log), bytes);
    }
  }

  predicate Prefixes(log: seq<Entry>) {
    forall i :: 0 <= i < |log| ==> IsPrefix(log[i].bytes, Encode(log[i].command))
  }

  lemma LongerPrefix(a: seq<byte>, left: seq<byte>, n: nat, all: seq<byte>)
    requires n <= |left| && a + left == all
    ensures IsPrefix(a + left[..n], all)
  {
    assert all == (a + left[..n]) + left[n..];
  }

  lemma PrefixesAppend(log: seq<Entry>, e: Entry)
    ensures Prefixes(log + [e]) <==> Prefixes(log) && IsPrefix(e.bytes, Encode(e.command))
  {
    if Prefixes(log + [e]) {
      assert forall i :: 0 <= i < |log| ==> (log + [e])[i] == log[i];
      assert (log + [e])[|log|] == e;
    }
  }

  lemma WroteIsPrefix(log: seq<Entry>, left: seq<byte>, n: nat)
    requires log != [] && Prefixes(log) && n <= |left|
    requires log[|log| - 1].bytes + left == Encode(log[|log| - 1].command)
    ensures Prefixes(Wrote(log, left[..n]))
  {
    var most, last := log[..|log| - 1], log[|log| - 1];
    LongerPrefix(last.bytes, left, n, Encode(last.command));
    assert log == most + [last];
    PrefixesAppend(most, last);
    PrefixesAppend(most, last.(bytes := last.bytes + left[..n]));
  }

  lemma PrefixesStep(s: State, m: Move)
    requires LockInv(s) && Prefixes(s.log) && Step(s, m).Some?
    ensures Prefixes(Step(s, m).value.log)
  {
    LogStep(s, m);
    if m.Acquire? {
      PrefixesAppend(s.log, Entry(m.t, s.writers[m.t].command, []));
    } else if m.Out? {
      WroteIsPrefix(s.log, s.writers[m.t].left, m.n);
    }
  }

  lemma InvReachable(s: State, json: seq<byte>, secret: Option<seq<byte>>)
    requires Reachable(s, json, secret)
    ensures Inv(s, HelloWire(json, secret))
  {
    var hello := HelloWire(json, secret);
    var i: State :| Init(i, json, secret) && Leads(Step, i, s);
    forall t, m | Inv(t, hello) && Step(t, m).Some?
      ensures Inv(Step(t, m).value, hello)
    {
      LockStep(t, m);
      OrderStep(t, m);
      BytesStep(t, m, hello);
      PrefixesStep(t, m);
    }
    InvariantHolds(Step, (t: State) => Inv(t, hello), i, s);
  }

  // ---------------------------------------------------------------- what the server reads

  lemma {:induction false} CompleteBytes(log: seq<Entry>)
    requires AllComplete(log)
    ensures BytesOf(log) == EncodeAll(CommandsOf(log))
  {
    if log != [] {
      var most, last := log[..|log| - 1], log[|log| - 1];
      CompleteBytes(most);
      CommandsConcat(log);
      assert Complete(last);
    }
  }

  lemma CommandsConcat(log: seq<Entry>)
    requires log != []
    ensures EncodeAll(CommandsOf(log)) == EncodeAll(CommandsOf(log[..|log| - 1])) + Encode(log[|log| - 1].command)
  {
    EncodeAllConcat(CommandsOf(log[..|log| - 1]), [log[|log| - 1].command]);
    EncodeOne(log[|log| - 1].command);
  }

  lemma PrefixLength(e: Entry)
    requires IsPrefix(e.bytes, Encode(e.command))
    ensures |e.bytes| <= |Encode(e.command)|
    ensures |e.bytes| == |Encode(e.command)| <==> Complete(e)
  {
    var all := Encode(e.command);
    if |e.bytes| == |all| {
      assert all[..|all|] == all;
    }
  }

  function Missing(log: seq<Entry>): int {
    |EncodeAll(CommandsOf(log))| - |BytesOf(log)|
  }

  lemma MissingStep(log: seq<Entry>)
    requires log != []
    ensures var last := log[|log| - 1];
            Missing(log) == Missing(log[..|log| - 1]) + |Encode(last.command)| - |last.bytes|
  {
    CommandsConcat(log);
  }

  lemma PrefixesButLast(log: seq<Entry>)
    requires log != [] && Prefixes(log)
    ensures Prefixes(log[..|log| - 1])
    ensures IsPrefix(log[|log| - 1].bytes, Encode(log[|log| - 1].command))
  {
  }

  /** The bytes of a command that did not go out. */
  function Lacking(): Entry -> nat {
    (e: Entry) => if |e.bytes| <= |Encode(e.command)| then |Encode(e.command)| - |e.bytes| else 0
  }

  lemma {:induction false} MissingIsSum(log: seq<Entry>)
    requires Prefixes(log)
    ensures Missing(log) == Sum(log, Lacking())
  {
    if log != [] {
      PrefixesButLast(log);
      MissingIsSum(log[..|log| - 1]);
      MissingStep(log);
      PrefixLength(log[|log| - 1]);
    }
  }

  lemma LacksSomething(e: Entry)
    requires IsPrefix(e.bytes, Encode(e.command)) && !Complete(e)
    ensures Lacking()(e) > 0
  {
    PrefixLength(e);
  }

  lemma TornIsShorter(log: seq<Entry>, i: nat)
    requires Prefixes(log) && i < |log| && !Complete(log[i])
    ensures Missing(log) > 0
  {
    LacksSomething(log[i]);
    SumAtLeast(log, Lacking(), i);
    MissingIsSum(log);
  }

  /** Everything the client sent, as the server should read it behind the magic. */
  function Sent(s: State, json: seq<byte>, secret: Option<seq<byte>>): seq<Command> {
    Hello(json, secret) + CommandsOf(s.log)
  }

  /** Whoever writes: the commands of each task are sent in the order it asked for them, and nothing else
      is sent; what got the lock and what waits for it make up all calls. */
  lemma TaskOrder(s: State, json: seq<byte>, secret: Option<seq<byte>>, t: TaskId)
    requires Reachable(s, json, secret) && t < |s.writers|
    ensures t < |s.calls| && CommandsBy(s.log, t) + Still(s.writers[t]) == s.calls[t]
  {
    InvReachable(s, json, secret);
  }

  /** What the server reads behind the magic, said of the bytes that went out for each command. */
  lemma ServerReads(s: State, json: seq<byte>, secret: Option<seq<byte>>)
    requires Reachable(s, json, secret)
    ensures |s.wire| >= 4 && s.wire[..4] == MAGIC_V2
    ensures ParseAll(s.wire[4..]) == Some(CanonicalAll(Sent(s, json, secret)))
        <==> AllComplete(s.log) && AllWellFormed(Sent(s, json, secret))
  {
    InvReachable(s, json, secret);
    var hello := Hello(json, secret);
    BehindMagic(s.wire, EncodeAll(hello), BytesOf(s.log));
    ReadBack(hello, s.log, s.wire[4..]);
  }

  lemma BehindMagic(wire: seq<byte>, hello: seq<byte>, bytes: seq<byte>)
    requires wire == (MAGIC_V2 + hello) + bytes
    ensures |wire| >= 4 && wire[..4] == MAGIC_V2 && wire[4..] == hello + bytes
  {
  }

  lemma ReadBack(hello: seq<Command>, log: seq<Entry>, b: seq<byte>)
    requires b == EncodeAll(hello) + BytesOf(log) && Prefixes(log)
    ensures var cs := hello + CommandsOf(log);
            ParseAll(b) == Some(CanonicalAll(cs)) <==> AllComplete(log) && AllWellFormed(cs)
  {
    var cs := hello + CommandsOf(log);
    EncodeAllConcat(hello, CommandsOf(log));
    if AllComplete(log) {
      CompleteBytes(log);
      StreamRoundTripIffWellFormed(cs);
    } else {
      var i :| 0 <= i < |log| && !Complete(log[i]);
      TornIsShorter(log, i);
      if ParseAll(b) == Some(CanonicalAll(cs)) {
        NothingShorter(b, cs);
      }
    }
  }

  // ---------------------------------------------------------------- cut writes

  ghost predicate NoCut(run: seq<Move>) {
    forall i :: 0 <= i < |run| ==> !run[i].Cut?
  }

  /** The entries nobody writes to any more. */
  function Past(s: State): seq<Entry>
    requires s.lock.Some? ==> s.log != []
  {
    if s.lock.Some? then s.log[..|s.log| - 1] else s.log
  }

  lemma WroteKeepsPast(log: seq<Entry>, bytes: seq<byte>)
    requires log != []
    ensures Wrote(log, bytes) != [] && Wrote(log, bytes)[..|log| - 1] == log[..|log| - 1]
  {
  }

  /** What the end of a write leaves: all of the command, or less if it was cut. */
  lemma EndOfWrite(e: Entry, left: seq<byte>)
    requires e.bytes + left == Encode(e.command)
    ensures Complete(e) <==> left == []
  {
    if left == [] {
      assert e.bytes + [] == e.bytes;
    } else {
      assert |e.bytes| < |Encode(e.command)|;
    }
  }

  lemma PastStep(s: State, m: Move)
    requires LockInv(s) && Step(s, m).Some?
    ensures var s' := Step(s, m).value;
            && (s'.lock.Some? ==> s'.log != [])
            && if m.Finished? || m.Cut?
               then Past(s') == Past(s) + [s.log[|s.log| - 1]] && (Complete(s.log[|s.log| - 1]) <==> m.Finished?)
               else Past(s') == Past(s)
  {
    if m.Out? {
      WroteKeepsPast(s.log, s.writers[m.t].left[..m.n]);
    } else if m.Finished? || m.Cut? {
      EndOfWrite(s.log[|s.log| - 1], s.writers[m.t].left);
    }
  }

  lemma AllCompleteAppend(log: seq<Entry>, e: Entry)
    ensures AllComplete(log + [e]) <==> AllComplete(log) && Complete(e)
  {
    if AllComplete(log + [e]) {
      assert forall i :: 0 <= i < |log| ==> (log + [e])[i] == log[i];
      assert (log + [e])[|log|] == e;
    }
  }

  lemma {:induction false} CompleteIffUncut(s: State, run: seq<Move>, s': State)
    requires LockInv(s) && Runs(Step, s, run, s')
    ensures s'.lock.Some? ==> s'.log != []
    ensures AllComplete(Past(s')) <==> AllComplete(Past(s)) && NoCut(run)
    decreases |run|
  {
    if run != [] {
      var s1 := Step(s, run[0]).value;
      LockStep(s, run[0]);
      PastStep(s, run[0]);
      CompleteIffUncut(s1, run[1..], s');
      if run[0].Finished? || run[0].Cut? {
        AllCompleteAppend(Past(s), s.log[|s.log| - 1]);
      }
      NoCutHead(run);
    }
  }

  lemma NoCutHead(run: seq<Move>)
    requires run != []
    ensures NoCut(run) <==> !run[0].Cut? && NoCut(run[1..])
  {
    if !run[0].Cut? && NoCut(run[1..]) {
      forall i | 0 <= i < |run|
        ensures !run[i].Cut?
      {
        assert i > 0 ==> run[i] == run[1..][i - 1];
      }
    }
  }

  /** Whenever the lock is free, after any run: the server recovers exactly the commands sent, handshake
      first, if and only if no write of the run was cut short and every command is well-formed. */
  lemma ServerRecoversIff(i: State, run: seq<Move>, s: State, json: seq<byte>, secret: Option<seq<byte>>)
    requires Init(i, json, secret) && Runs(Step, i, run, s) && s.lock.None?
    ensures |s.wire| >= 4 && s.wire[..4] == MAGIC_V2
    ensures ParseAll(s.wire[4..]) == Some(CanonicalAll(Sent(s, json, secret)))
        <==> NoCut(run) && AllWellFormed(Sent(s, json, secret))
  {
    assert Leads(Step, i, s);
    ServerReads(s, json, secret);
    CompleteIffUncut(i, run, s);
  }

  function OneTorn(c: Command): seq<Move> {
    [Call(0, c), Acquire(0), Move.Cut(0)]
  }

  lemma OneTornRuns(i: State, c: Command) returns (s: State)
    requires i.lock.None? && i.log == [] && |i.calls| == |i.writers| > 0 && i.writers[0].Free?
    ensures Runs(Step, i, OneTorn(c), s) && s.lock.None? && s.log == [Entry(0, c, [])]
  {
    var run := OneTorn(c);
    var s1 := i.(writers := i.writers[0 := Waiting(c)], calls := i.calls[0 := i.calls[0] + [c]]);
    var s2 := s1.(lock := Some(0), writers := s1.writers[0 := Writing(c, Encode(c))], log := [Entry(0, c, [])]);
    s := s2.(lock := None, writers := s2.writers[0 := Free]);
    assert run[1..] == [Acquire(0), Move.Cut(0)] && run[1..][1..] == [Move.Cut(0)];
    assert [] + [Entry(0, c, [])] == [Entry(0, c, [])];
    assert Step(s2, Move.Cut(0)) == Some(s) && Runs(Step, s, [], s);
    assert Runs(Step, s2, [Move.Cut(0)], s);
    assert Step(s1, Acquire(0)) == Some(s2);
    assert Runs(Step, s1, [Acquire(0), Move.Cut(0)], s);
  }

  /** A time-out before the first byte of any command: the lock is free again, and the server does not
      read what was sent. */
  lemma TornRun(i: State, json: seq<byte>, secret: Option<seq<byte>>, c: Command) returns (s: State)
    requires Init(i, json, secret) && |i.writers| > 0
    ensures Runs(Step, i, OneTorn(c), s) && s.lock.None? && CommandsOf(s.log) == [c]
    ensures |s.wire| >= 4 && ParseAll(s.wire[4..]) != Some(CanonicalAll(Sent(s, json, secret)))
  {
    s := OneTornRuns(i, c);
    AppendEntry([], Entry(0, c, []));
    assert [] + s.log == s.log;
    assert OneTorn(c)[2].Cut?;
    ServerRecoversIff(i, OneTorn(c), s, json, secret);
  }

  /** Without time-outs the senders compose: whenever the lock is free the server reads whole commands
      only, handshake first and then an interleaving that keeps the order of every task. */
  lemma SendersCompose(i: State, run: seq<Move>, s: State, json: seq<byte>, secret: Option<seq<byte>>)
    requires Init(i, json, secret) && NoCut(run) && Runs(Step, i, run, s) && s.lock.None?
    requires AllWellFormed(Sent(s, json, secret))
    ensures |s.wire| >= 4 && ParseAll(s.wire[4..]) == Some(CanonicalAll(Sent(s, json, secret)))
    ensures forall t: TaskId :: t < |s.writers| ==>
              t < |s.calls| && CommandsBy(s.log, t) + Still(s.writers[t]) == s.calls[t]
  {
    assert Leads(Step, i, s);
    InvReachable(s, json, secret);
    ServerRecoversIff(i, run, s, json, secret);
  }
}
