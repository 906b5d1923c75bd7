/** The errors that end a connection's loop, as the library's error type has them, and which of them are
    taken for a lost connection. */
module Errors {

  datatype IoKind = BrokenPipe | ConnectionReset | ConnectionAborted | UnexpectedEof | OtherKind

  datatype ProtocolError = InvalidFrameSize | InvalidFrameType(frameType: int) | OtherProtocol(text: string)

  /** Timeout is made by `ping` alone; TimedOut is what an elapsed `timeout` turns into. */
  datatype Error =
    | Io(kind: IoKind, text: string)
    | Protocol(error: ProtocolError)
    | Timeout(text: string)
    | TimedOut
    | Other(text: string)

  /** What can go wrong in `handle_connection`. */
  datatype Cause =
    | ReadFails(kind: IoKind, text: string)
    | WriteFails(kind: IoKind, text: string)
    | ReadTimesOut
    | WriteTimesOut
    | BadFrameSize
    | BadFrameType(frameType: int)
    | ServerSays(text: string)          // an error frame that names E_INVALID
    | SemaphoreClosed

  function ErrorOf(c: Cause): Error {
    match c
    case ReadFails(kind, text) => Io(kind, text)
    case WriteFails(kind, text) => Io(kind, text)
    case ReadTimesOut => TimedOut
    case WriteTimesOut => TimedOut
    case BadFrameSize => Protocol(InvalidFrameSize)
    case BadFrameType(t) => Protocol(InvalidFrameType(t))
    case ServerSays(text) => Protocol(OtherProtocol(text))
    case SemaphoreClosed => Other("semaphore closed")
  }

  // ---------------------------------------------------------------- as text

  function Digits(n: nat): (text: string)
    ensures forall c :: c in text ==> '0' <= c <= '9'
  {
    if n < 10 then [('0' as int + n) as char] else Digits(n / 10) + [('0' as int + n % 10) as char]
  }

  function Numeral(n: int): string {
    if n < 0 then "-" + Digits(-n) else Digits(n)
  }

  const IO_PREFIX: string := "IO错误: "
  const PROTOCOL_PREFIX: string := "协议错误: "
  const OTHER_PROTOCOL_PREFIX: string := "Protocol error: "

  function ProtocolText(e: ProtocolError): string {
    match e
    case InvalidFrameSize => "Invalid frame size"
    case InvalidFrameType(t) => "Invalid frame type: " + Numeral(t)
    case OtherProtocol(text) => OTHER_PROTOCOL_PREFIX + text
  }

  /** `to_string`. */
  function Text(e: Error): string {
    match e
    case Io(_, text) => IO_PREFIX + text
    case Protocol(error) => PROTOCOL_PREFIX + ProtocolText(error)
    case Timeout(text) => "操作超时: " + text
    case TimedOut => "操作超时"
    case Other(text) => "其他错误: " + text
  }

  const EARLY_EOF: string := "early eof"

  predicate OccursAt(text: string, i: nat) {
    i + |EARLY_EOF| <= |text| && text[i..i + |EARLY_EOF|] == EARLY_EOF
  }

  predicate SaysEarlyEof(text: string) {
    exists i: nat :: i <= |text| && OccursAt(text, i)
  }

  // ---------------------------------------------------------------- which are retried

  predicate LostConnection(kind: IoKind) {
    kind.BrokenPipe? || kind.ConnectionReset? || kind.ConnectionAborted? || kind.UnexpectedEof?
  }

  /** `is_connection_error`. */
  predicate IsConnectionError(e: Error) {
    (e.Io? && LostConnection(e.kind)) || SaysEarlyEof(Text(e))
  }

  predicate Retried(e: Error) {
    IsConnectionError(e) || e.Timeout?
  }

  lemma OccursMeans(text: string, i: nat)
    requires OccursAt(text, i)
    ensures forall k :: i <= k < i + |EARLY_EOF| ==> text[k] == EARLY_EOF[k - i]
  {
    forall k | i <= k < i + |EARLY_EOF|
      ensures text[k] == EARLY_EOF[k - i]
    {
      assert text[i..i + |EARLY_EOF|][k - i] == text[k];
    }
  }

  /** No l is followed by a y. */
  predicate NoLy(text: string) {
    forall k :: 0 <= k < |text| - 1 && text[k] == 'l' ==> text[k + 1] != 'y'
  }

  lemma NoLyAt(text: string, k: nat)
    requires NoLy(text)
    ensures k + 1 < |text| ==> !(text[k] == 'l' && text[k + 1] == 'y')
  {
  }

  lemma NoLyNoEof(text: string)
    requires NoLy(text)
    ensures !SaysEarlyEof(text)
  {
    forall i: nat | i <= |text| && i + |EARLY_EOF| <= |text|
      ensures !OccursAt(text, i)
    {
      NoLyAt(text, i + 3);
      if OccursAt(text, i) {
        OccursMeans(text, i);
      }
    }
  }

  /** A prefix that ends in a space and has no such pair adds no occurrence and hides none. */
  lemma BehindPrefix(prefix: string, text: string)
    requires prefix != [] && prefix[|prefix| - 1] == ' ' && NoLy(prefix)
    ensures SaysEarlyEof(prefix + text) <==> SaysEarlyEof(text)
  {
    if i: nat :| i <= |prefix + text| && OccursAt(prefix + text, i) {
      OccursBehind(prefix, text, i);
    }
    if i: nat :| i <= |text| && OccursAt(text, i) {
      assert (prefix + text)[|prefix| + i..|prefix| + i + |EARLY_EOF|] == text[i..i + |EARLY_EOF|];
      assert OccursAt(prefix + text, |prefix| + i);
    }
  }

  lemma OccursBehind(prefix: string, text: string, i: nat)
    requires prefix != [] && prefix[|prefix| - 1] == ' ' && NoLy(prefix) && OccursAt(prefix + text, i)
    ensures i >= |prefix| && OccursAt(text, i - |prefix|)
  {
    var all, n := prefix + text, |prefix|;
    OccursMeans(all, i);
    assert all[n - 1] == ' ';
    assert all[i + 3] == 'l' && all[i + 4] == 'y';
    NoLyAt(prefix, i + 3);
    assert n <= i + 4;
    assert n <= i;
    assert all[i..i + |EARLY_EOF|] == text[i - n..i - n + |EARLY_EOF|];
  }

  lemma ServerText(text: string)
    ensures SaysEarlyEof(Text(Protocol(OtherProtocol(text)))) <==> SaysEarlyEof(text)
  {
    BehindPrefix(PROTOCOL_PREFIX, OTHER_PROTOCOL_PREFIX + text);
    BehindPrefix(OTHER_PROTOCOL_PREFIX, text);
  }

  lemma NumeralText(t: int)
    ensures !SaysEarlyEof(Text(Protocol(InvalidFrameType(t))))
  {
    BehindPrefix(PROTOCOL_PREFIX, "Invalid frame type: " + Numeral(t));
    BehindPrefix("Invalid frame type: ", Numeral(t));
    assert 'l' !in Numeral(t);
    NoLyNoEof(Numeral(t));
  }

  lemma IoText(kind: IoKind, text: string)
    ensures SaysEarlyEof(Text(Io(kind, text))) <==> SaysEarlyEof(text)
  {
    BehindPrefix(IO_PREFIX, text);
  }

  lemma SizeText()
    ensures !SaysEarlyEof(Text(Protocol(InvalidFrameSize)))
  {
    NoLyNoEof(Text(Protocol(InvalidFrameSize)));
  }

  lemma SemaphoreText()
    ensures !SaysEarlyEof(Text(Other("semaphore closed")))
  {
    NoLyNoEof(Text(Other("semaphore closed")));
  }

  lemma TimedOutText()
    ensures !SaysEarlyEof(Text(TimedOut))
  {
    NoLyNoEof(Text(TimedOut));
  }

  /** An I/O error of one of four kinds, or any I/O error or error frame of the server that says "early
      eof". */
  predicate ReconnectsAfter(c: Cause) {
    match c
    case ReadFails(kind, text) => LostConnection(kind) || SaysEarlyEof(text)
    case WriteFails(kind, text) => LostConnection(kind) || SaysEarlyEof(text)
    case ServerSays(text) => SaysEarlyEof(text)
    case _ => false
  }

  /** The loop reconnects after these and nothing else.  In particular a time-out of a read or a write ends
      it. */
  lemma RetriedIff(c: Cause)
    ensures Retried(ErrorOf(c)) <==> ReconnectsAfter(c)
  {
    match c
    case ReadFails(kind, text) => IoText(kind, text);
    case WriteFails(kind, text) => IoText(kind, text);
    case ServerSays(text) => ServerText(text);
    case BadFrameType(t) => NumeralText(t);
    case BadFrameSize => SizeText();
    case SemaphoreClosed => SemaphoreText();
    case _ => TimedOutText();
  }
}
