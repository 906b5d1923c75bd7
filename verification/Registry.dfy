/** The registry of a consumer's connections: a map behind a lock, and a counter beside it.  Any number of
    callers, clones of the consumer and lookup polls among them, take the lock in any order. */
module Registry {
  import opened Tally
  import opened Transitions

  type Addr = string

  type CallerId = nat

  datatype Call = Connect(addr: Addr) | Disconnect(addr: Addr) | StopAll

  /** Where a caller is; all points from Dialing on are inside the lock. */
  datatype Pc =
    | Out
    | Wants(call: Call)
    | Dialing(addr: Addr)         // not in the map
    | Raising                     // inserted, before the counter goes up
    | Lowering                    // removed, before the counter goes down
    | Closing                     // counter lowered, close under way
    | Draining(left: set<Addr>)
    | Clearing                    // map empty, before the counter is set to zero
    | Leaving                     // before the lock is released

  datatype State = State(connections: set<Addr>, count: int, running: bool, holder: Option<CallerId>, callers: seq<Pc>)

  datatype Move =
    | Enter(i: CallerId, call: Call)
    | Start
    | Lock(i: CallerId)
    | Go(i: CallerId, well: bool)           // the next step; well: the dial or the close succeeds
    | Close(i: CallerId, addr: Addr)        // stop closes one more connection
    | Late(i: CallerId)                     // stop's deadline

  predicate Inside(pc: Pc) {
    !pc.Out? && !pc.Wants?
  }

  function Put(s: State, i: CallerId, pc: Pc): State
    requires i < |s.callers|
  {
    s.(callers := s.callers[i := pc])
  }

  function Step(s: State, m: Move): Option<State> {
    match m
    case Start => Some(s.(running := true))
    case Enter(i, call) =>
      // stop lowers the flag before it waits for the lock
      if i < |s.callers| && s.callers[i].Out? then
        Some(Put(s, i, Wants(call)).(running := s.running && !call.StopAll?))
      else None
    case Lock(i) =>
      if i < |s.callers| && s.callers[i].Wants? && s.holder.None? then
        Some(Locked(s, i, s.callers[i].call).(holder := Some(i)))
      else None
    case Go(i, well) =>
      if i < |s.callers| && Inside(s.callers[i]) then Some(Gone(s, i, well)) else None
    case Close(i, addr) =>
      if i < |s.callers| && s.callers[i].Draining? && addr in s.callers[i].left then
        Some(Put(s, i, Draining(s.callers[i].left - {addr})))
      else None
    case Late(i) =>
      // the drain is dropped, and with it all that was left
      if i < |s.callers| && s.callers[i].Draining? then Some(Put(s, i, Draining({}))) else None
  }

  function Locked(s: State, i: CallerId, call: Call): State
    requires i < |s.callers|
  {
    match call
    case Connect(addr) => Put(s, i, if addr in s.connections then Leaving else Dialing(addr))
    case Disconnect(addr) =>
      if addr in s.connections then Put(s, i, Lowering).(connections := s.connections - {addr}) else Put(s, i, Leaving)
    case StopAll => Put(s, i, Draining(s.connections)).(connections := {})
  }

  function Gone(s: State, i: CallerId, well: bool): State
    requires i < |s.callers| && Inside(s.callers[i])
  {
    match s.callers[i]
    case Dialing(addr) =>
      if well then Put(s, i, Raising).(connections := s.connections + {addr}) else Put(s, i, Leaving)
    case Raising => Put(s, i, Leaving).(count := s.count + 1)
    case Lowering => Put(s, i, Closing).(count := s.count - 1)
    case Closing => Put(s, i, Leaving)
    case Draining(left) => if left == {} then Put(s, i, Clearing) else s
    case Clearing => Put(s, i, Leaving).(count := 0)
    case Leaving => Put(s, i, Out).(holder := None)
    case _ => s
  }

  predicate Init(s: State) {
    && s.connections == {} && s.count == 0 && s.running && s.holder.None?
    && forall i :: 0 <= i < |s.callers| ==> s.callers[i].Out?
  }

  ghost predicate Reachable(s: State) {
    exists i: State :: Init(i) && Leads(Step, i, s)
  }

  /** What the counter is ahead of the map, by what the holder of the lock is about to do. */
  predicate Agrees(s: State) {
    && (forall i: CallerId :: i < |s.callers| && Inside(s.callers[i]) ==> s.holder == Some(i))
    && match s.holder
       case None => s.count == |s.connections|
       case Some(h) =>
         && h < |s.callers| && Inside(s.callers[h])
         && match s.callers[h]
            case Dialing(addr) => addr !in s.connections && s.count == |s.connections|
            case Raising => s.connections != {} && s.count == |s.connections| - 1
            case Lowering => s.count == |s.connections| + 1
            case Draining(_) => s.connections == {} && s.count >= 0
            case Clearing => s.connections == {} && s.count >= 0
            case _ => s.count == |s.connections|
  }

  lemma SizeWithout(xs: set<Addr>, x: Addr)
    requires x in xs
    ensures |xs - {x}| == |xs| - 1
  {
    assert xs == (xs - {x}) + {x};
  }

  lemma AgreesLock(s: State, i: CallerId)
    requires Agrees(s) && Step(s, Lock(i)).Some?
    ensures Agrees(Step(s, Lock(i)).value)
  {
    var call := s.callers[i].call;
    if call.Disconnect? && call.addr in s.connections {
      SizeWithout(s.connections, call.addr);
    }
    OnlyInside(s, i, Step(s, Lock(i)).value);
  }

  /** With the lock free nobody is inside, so whoever takes it is alone. */
  lemma OnlyInside(s: State, i: CallerId, s': State)
    requires i < |s.callers| && s.holder.None? && |s'.callers| == |s.callers|
    requires forall k: CallerId :: k < |s.callers| && Inside(s.callers[k]) ==> s.holder == Some(k)
    requires forall k: CallerId :: k < |s.callers| && k != i ==> s'.callers[k] == s.callers[k]
    ensures forall k: CallerId :: k < |s'.callers| && Inside(s'.callers[k]) ==> k == i
  {
  }

  lemma AgreesGo(s: State, i: CallerId, well: bool)
    requires Agrees(s) && Step(s, Go(i, well)).Some?
    ensures Agrees(Step(s, Go(i, well)).value)
  {
    match s.callers[i]
    case Dialing(addr) =>
    case Raising =>
    case Lowering =>
    case Closing =>
    case Draining(left) =>
    case Clearing =>
    case Leaving =>
  }

  lemma AgreesStep(s: State, m: Move)
    requires Agrees(s) && Step(s, m).Some?
    ensures Agrees(Step(s, m).value)
  {
    match m
    case Lock(i) => AgreesLock(s, i);
    case Go(i, well) => AgreesGo(s, i, well);
    case _ =>
  }

  /** Whenever the lock is free the counter is the size of the map, whoever connected, disconnected or
      stopped, whether their dials and closes succeeded or were cut short; and it is never negative. */
  lemma RegistryAgreement(s: State)
    requires Reachable(s)
    ensures s.holder.None? ==> s.count == |s.connections|
    ensures s.count >= 0
  {
    var i: State :| Init(i) && Leads(Step, i, s);
    forall t, m | Agrees(t) && Step(t, m).Some?
      ensures Agrees(Step(t, m).value)
    {
      AgreesStep(t, m);
    }
    InvariantHolds(Step, (t: State) => Agrees(t), i, s);
  }
}
