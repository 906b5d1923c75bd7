/** The loop that keeps one connection alive: back-off between attempts, and what it does after stop. */
module Reconnect {
  import opened Tally
  import opened Transitions
  import opened Errors

  // ---------------------------------------------------------------- back-off

  const MAX_DELAY: nat := 60

  function Pow2(n: nat): (p: nat)
    ensures p >= 1
  {
    if n == 0 then 1 else 2 * Pow2(n - 1)
  }

  function Min(a: nat, b: nat): nat {
    if a <= b then a else b
  }

  /** The base delay after n failed attempts in a row. */
  function Base(n: nat): nat {
    Min(Pow2(n), MAX_DELAY)
  }

  /** How many attempts at the end of the history failed. */
  function FailedInARow(attempts: seq<bool>): (n: nat)
    ensures n <= |attempts|
  {
    if attempts == [] || attempts[|attempts| - 1] then 0
    else 1 + FailedInARow(attempts[..|attempts| - 1])
  }

  /** It counts the attempts since the last success, and nothing before. */
  lemma {:induction false} SinceLastSuccess(attempts: seq<bool>)
    ensures var n := FailedInARow(attempts);
            && (forall i :: |attempts| - n <= i < |attempts| ==> !attempts[i])
            && (n < |attempts| ==> attempts[|attempts| - n - 1])
  {
    if attempts != [] && !attempts[|attempts| - 1] {
      SinceLastSuccess(attempts[..|attempts| - 1]);
    }
  }

  lemma BaseStep(n: nat)
    ensures Base(n + 1) == Min(Base(n) * 2, MAX_DELAY)
  {
  }

  /** Six failures reach the limit. */
  lemma BaseLimit(n: nat)
    ensures n < 6 ==> Base(n) == Pow2(n)
    ensures n >= 6 ==> Base(n) == MAX_DELAY
    ensures 1 <= Base(n) <= MAX_DELAY
  {
    assert Pow2(1) == 2 && Pow2(2) == 4 && Pow2(3) == 8;
    assert Pow2(4) == 16 && Pow2(5) == 32 && Pow2(6) == 64;
    if n >= 6 {
      Pow2Grows(6, n);
    } else {
      Pow2Grows(n, 5);
    }
  }

  lemma {:induction false} Pow2Grows(m: nat, n: nat)
    requires m <= n
    ensures Pow2(m) <= Pow2(n)
  {
    if m < n {
      Pow2Grows(m, n - 1);
    }
  }

  /** How `handle_connection` fails: with an error, or by a panic, which ends the loop too. */
  datatype Failure = Failed(cause: Cause) | Panicking

  /** What one turn of the loop meets: the flag where it is read, how `handle_connection` ends, the random
      number of the jitter, and whether the reconnect succeeds. */
  datatype Turn = Turn(atTop: bool, failure: Option<Failure>, afterError: bool, random: real, afterSleep: bool,
                       reconnected: bool)

  predicate Random(x: real) {
    0.0 <= x < 1.0
  }

  /** The loop sleeps after an error that is retried, while the consumer runs. */
  predicate Sleeps(turn: Turn) {
    && turn.atTop && turn.afterError && turn.failure.Some? && turn.failure.value.Failed?
    && ReconnectsAfter(turn.failure.value.cause)
  }

  predicate TriesAgain(turn: Turn) {
    Sleeps(turn) && turn.afterSleep
  }

  /** A sleep of whole seconds, between the base and 1.3 times the base; the base itself without back-off. */
  predicate Paced(sleep: nat, base: nat, backoff: bool) {
    if backoff then base <= sleep && sleep as real <= 1.3 * base as real else sleep == base
  }

  /** The base of the k-th sleep, after the attempts that were made before it. */
  function BaseAfter(attempts: seq<bool>, backoff: bool): nat {
    if backoff then Base(FailedInARow(attempts)) else 1
  }

  predicate Schedule(sleeps: seq<nat>, bases: seq<nat>, attempts: seq<bool>, backoff: bool) {
    && |sleeps| == |bases| && |attempts| <= |sleeps| <= |attempts| + 1
    && (forall k :: 0 <= k < |sleeps| ==> Paced(sleeps[k], bases[k], backoff))
    && (forall k :: 0 <= k < |bases| ==> bases[k] == BaseAfter(attempts[..k], backoff))
  }

  lemma OneMoreSleep(sleeps: seq<nat>, bases: seq<nat>, attempts: seq<bool>, backoff: bool, sleep: nat, base: nat)
    requires Schedule(sleeps, bases, attempts, backoff) && |sleeps| == |attempts|
    requires base == BaseAfter(attempts, backoff) && Paced(sleep, base, backoff)
    ensures Schedule(sleeps + [sleep], bases + [base], attempts, backoff)
  {
    assert attempts[..|attempts|] == attempts;
  }

  lemma OneMoreAttempt(sleeps: seq<nat>, bases: seq<nat>, attempts: seq<bool>, backoff: bool, well: bool)
    requires Schedule(sleeps, bases, attempts, backoff) && |sleeps| == |attempts| + 1
    ensures Schedule(sleeps, bases, attempts + [well], backoff)
    ensures BaseAfter(attempts + [well], backoff) ==
              if well || !backoff then 1 else Min(BaseAfter(attempts, backoff) * 2, MAX_DELAY)
  {
    assert (attempts + [well])[..|attempts|] == attempts;
    assert forall k :: 0 <= k < |bases| ==> (attempts + [well])[..k] == attempts[..k];
    BaseStep(FailedInARow(attempts));
  }

  predicate AttemptsOf(attempts: seq<bool>, turns: seq<Turn>) {
    && |attempts| <= |turns|
    && forall k :: 0 <= k < |attempts| ==> TriesAgain(turns[k]) && attempts[k] == turns[k].reconnected
  }

  /** The loop of `connect_to_nsqd`, for as many turns as are given: the delays it slept with their bases,
      the attempts it made, and whether it ended. */
  method KeepConnected(turns: seq<Turn>, backoff: bool)
    returns (sleeps: seq<nat>, bases: seq<nat>, attempts: seq<bool>, ended: bool)
    requires forall i :: 0 <= i < |turns| ==> Random(turns[i].random)
    ensures Schedule(sleeps, bases, attempts, backoff) && AttemptsOf(attempts, turns)
    ensures if ended then |attempts| < |turns| && !TriesAgain(turns[|attempts|]) else |attempts| == |turns|
    ensures |sleeps| > |attempts| <==> ended && Sleeps(turns[|attempts|])
  {
    var retryDelay: nat := 1;
    sleeps, bases, attempts, ended := [], [], [], false;
    for i := 0 to |turns|
      invariant |sleeps| == |attempts| == i && !ended
      invariant Schedule(sleeps, bases, attempts, backoff) && AttemptsOf(attempts, turns)
      invariant retryDelay == BaseAfter(attempts, backoff)
    {
      var turn := turns[i];
      var sleeping := GoesToSleep(turn);
      if !sleeping {
        ended := true;
        return;
      }
      var sleep := SleepTime(retryDelay, turn.random, backoff);
      OneMoreSleep(sleeps, bases, attempts, backoff, sleep, retryDelay);
      sleeps, bases := sleeps + [sleep], bases + [retryDelay];
      if backoff {
        retryDelay := Min(retryDelay * 2, MAX_DELAY);
      }
      if !turn.afterSleep {
        ended := true;
        return;
      }
      OneMoreAttempt(sleeps, bases, attempts, backoff, turn.reconnected);
      attempts := attempts + [turn.reconnected];
      if turn.reconnected {
        retryDelay := 1;
      }
    }
  }

  /** The tests before the sleep. */
  method GoesToSleep(turn: Turn) returns (sleeping: bool)
    ensures sleeping <==> Sleeps(turn)
  {
    if !turn.atTop || turn.failure.None? || turn.failure.value.Panicking? || !turn.afterError {
      return false;
    }
    RetriedIff(turn.failure.value.cause);
    var e := ErrorOf(turn.failure.value.cause);
    sleeping := IsConnectionError(e) || e.Timeout?;
  }

  method SleepTime(retryDelay: nat, random: real, backoff: bool) returns (sleep: nat)
    requires Random(random)
    ensures Paced(sleep, retryDelay, backoff)
  {
    if backoff {
      var jitter := random * 0.3;
      Jitter(retryDelay, jitter);
      sleep := (retryDelay as real * (1.0 + jitter)).Floor;
    } else {
      sleep := retryDelay;
    }
  }

  lemma NonNegative(x: real, y: real)
    requires x >= 0.0 && y >= 0.0
    ensures x * y >= 0.0
  {
  }

  lemma Distributes(b: real, x: real, y: real)
    ensures b * (x + y) == b * x + b * y
  {
  }

  lemma Jitter(base: nat, jitter: real)
    requires 0.0 <= jitter < 0.3
    ensures base <= (base as real * (1.0 + jitter)).Floor
    ensures (base as real * (1.0 + jitter)).Floor as real <= 1.3 * base as real
  {
    var b, rest := base as real, 0.3 - jitter;
    NonNegative(b, jitter);
    NonNegative(b, rest);
    Distributes(b, 1.0, jitter);
    Distributes(b, 1.0 + jitter, rest);
    assert 1.0 + jitter + rest == 1.3;
  }

  // ---------------------------------------------------------------- stopping

  /** Where the loop is. */
  datatype Point =
    | Top             // before it reads the flag
    | Subscribing     // sending SUB and RDY
    | InnerTop        // before handle_connection reads the flag
    | Selecting       // waiting for a tick or a frame
    | InFrame         // handling one
    | AfterError
    | Sleeping
    | AfterSleep
    | Connecting
    | Done

  /** frames and reconnects count what was begun. */
  datatype State = State(at: Point, running: bool, frames: nat, reconnects: nat)

  datatype Move = Go(well: bool) | Frame | Tick | Stop | Start

  /** Go is the next step of the loop; well says whether its I/O succeeds, and for AfterError whether the
      error is one of the connection. */
  function Step(s: State, m: Move): Option<State> {
    match m
    case Stop => Some(s.(running := false))
    case Start => Some(s.(running := true))
    case Frame => if s.at.Selecting? then Some(s.(at := InFrame, frames := s.frames + 1)) else None
    case Tick => if s.at.Selecting? then Some(s.(at := InnerTop)) else None
    case Go(well) =>
      match s.at
      case Top => Some(s.(at := if s.running then Subscribing else Done))
      case Subscribing => Some(s.(at := if well then InnerTop else AfterError))
      case InnerTop => Some(s.(at := if s.running then Selecting else Done))
      case Selecting => if well then None else Some(s.(at := AfterError))
      case InFrame => Some(s.(at := if well then InnerTop else AfterError))
      case AfterError => Some(s.(at := if s.running && well then Sleeping else Done))
      case Sleeping => Some(s.(at := AfterSleep))
      case AfterSleep =>
        Some(if s.running then s.(at := Connecting, reconnects := s.reconnects + 1) else s.(at := Done))
      case Connecting => Some(s.(at := Top))
      case Done => None
  }

  /** How many steps a stopped task still makes at most. */
  function Rank(at: Point): nat {
    match at
    case Done => 0
    case Top => 1
    case InnerTop => 1
    case AfterError => 1
    case AfterSleep => 1
    case Subscribing => 2
    case InFrame => 2
    case Connecting => 2
    case Sleeping => 2
    case Selecting => 3
  }

  predicate OwnMove(m: Move) {
    m.Go? || m.Frame? || m.Tick?
  }

  ghost predicate OwnMoves(run: seq<Move>) {
    forall i :: 0 <= i < |run| ==> run[i].Go? || run[i].Frame? || run[i].Tick?
  }

  lemma StoppedStep(s: State, m: Move)
    requires !s.running && OwnMove(m) && Step(s, m).Some?
    ensures var s' := Step(s, m).value;
            !s'.running && Rank(s'.at) < Rank(s.at)
            && s'.frames == s.frames + (if s.at.Selecting? && m.Frame? then 1 else 0)
            && s'.reconnects == s.reconnects && !s'.at.Selecting?
  {
  }

  /** From whatever point it is stopped at, with no later start, the loop begins at most one more frame,
      and only if it was waiting for one, and no more reconnect than the one it may be in; it ends after at
      most three more steps. */
  lemma {:induction false} AfterStop(s: State, run: seq<Move>, s': State)
    requires !s.running && OwnMoves(run) && Runs(Step, s, run, s')
    ensures s'.reconnects == s.reconnects
    ensures s.frames <= s'.frames <= s.frames + (if s.at.Selecting? then 1 else 0)
    ensures |run| <= Rank(s.at) - Rank(s'.at) <= 3
    decreases |run|
  {
    if run != [] {
      assert OwnMove(run[0]);
      StoppedStep(s, run[0]);
      AfterStop(Step(s, run[0]).value, run[1..], s');
    }
  }
}
