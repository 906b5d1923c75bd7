/** The server's side of the command stream, after the sections "Commands" and "Data Format" of the
    NSQ TCP Protocol Spec: a line of words, and for some commands a sized block after it. */
module CommandParser {
  import opened Tally
  import opened Bytes
  import opened Commands

  /** A four-byte length and that many bytes; the block and what is left. */
  function TakeSized(b: seq<byte>): (r: Option<(seq<byte>, seq<byte>)>)
    ensures r.Some? ==> |r.value.0| + 4 + |r.value.1| == |b| && |r.value.0| < 0x1_0000_0000
  {
    if |b| < 4 then None
    else
      var n := FromBigEndian(b[..4]);
      Power256Four();
      if |b| < 4 + n then None else Some((b[4..4 + n], b[4 + n..]))
  }

  /** Exactly n sized blocks and nothing else. */
  function TakeBodies(b: seq<byte>, n: nat): (r: Option<seq<seq<byte>>>)
    ensures r.Some? ==> |r.value| == n && |SizedAll(r.value)| == |b|
  {
    if n == 0 then
      if b == [] then Some([]) else None
    else
      match TakeSized(b)
      case None => None
      case Some((body, rest)) =>
        match TakeBodies(rest, n - 1)
        case None => None
        case Some(bodies) => Some([body] + bodies)
  }

  /** The payload of an MPUB: the number of messages, then the messages. */
  function TakeMessages(block: seq<byte>): Option<seq<seq<byte>>> {
    if |block| < 4 then None else TakeBodies(block[4..], FromBigEndian(block[..4]))
  }

  /** A command with a sized block after its line. */
  function WithBlock(words: seq<seq<byte>>, block: seq<byte>): Option<Command> {
    if words == [IDENTIFY] then Some(Identify(block))
    else if words == [AUTH] then Some(Auth(Some(block)))
    else if |words| == 2 && words[0] == PUB then Some(Publish(words[1], block))
    else if |words| == 3 && words[0] == DPUB then
      (match ParseU32(words[2]) case None => None case Some(delay) => Some(DelayedPublish(words[1], block, delay)))
    else if |words| == 2 && words[0] == MPUB then
      (match TakeMessages(block) case None => None case Some(bodies) => Some(Mpublish(words[1], bodies)))
    else None
  }

  /** A command that is only a line. */
  function LineOnly(words: seq<seq<byte>>): Option<Command> {
    if words == [NOP] then Some(Nop)
    else if words == [CLS] then Some(Cls)
    else if |words| == 2 && words[0] == FIN then Some(Finish(words[1]))
    else if |words| == 2 && words[0] == TOUCH then Some(Touch(words[1]))
    else if |words| == 2 && words[0] == RDY then
      (match ParseU32(words[1]) case None => None case Some(count) => Some(Ready(count)))
    else if |words| == 3 && words[0] == REQ then
      (match ParseU32(words[2]) case None => None case Some(delay) => Some(Requeue(words[1], delay)))
    else if |words| == 3 && words[0] == SUB then Some(Subscribe(words[1], words[2]))
    else None
  }

  predicate HasBlock(name: seq<byte>) {
    name == IDENTIFY || name == AUTH || name == PUB || name == DPUB || name == MPUB
  }

  /** The command that a line of words starts, with its block taken from what follows the line. */
  function Interpret(words: seq<seq<byte>>, rest: seq<byte>): (r: Option<(Command, seq<byte>)>)
    requires words != []
    ensures r.Some? ==> |r.value.1| <= |rest|
  {
    if HasBlock(words[0]) then
      match TakeSized(rest)
      case None => None
      case Some((block, rest')) =>
        (match WithBlock(words, block) case None => None case Some(c) => Some((c, rest')))
    else
      match LineOnly(words) case None => None case Some(c) => Some((c, rest))
  }

  /** The first command of a stream and what follows it. */
  function Parse(b: seq<byte>): (r: Option<(Command, seq<byte>)>)
    ensures r.Some? ==> |r.value.1| < |b|
  {
    var i := IndexOf(b, NEWLINE);
    if i == |b| then None else Interpret(Split(b[..i]), b[i + 1..])
  }

  /** A whole stream of commands. */
  function ParseAll(b: seq<byte>): Option<seq<Command>>
    decreases |b|
  {
    if b == [] then Some([])
    else
      match Parse(b)
      case None => None
      case Some((c, rest)) =>
        match ParseAll(rest)
        case None => None
        case Some(cs) => Some([c] + cs)
  }

  // ---------------------------------------------------------------- which commands survive

  predicate Fits(b: seq<byte>) {
    |b| < 0x1_0000_0000
  }

  /** Names and ids without space and newline, blocks whose length fits 32 bits. */
  predicate WellFormed(c: Command) {
    match c
    case Identify(json) => Fits(json)
    case Subscribe(topic, channel) => Plain(topic) && Plain(channel)
    case Publish(topic, body) => Plain(topic) && Fits(body)
    case DelayedPublish(topic, body, _) => Plain(topic) && Fits(body)
    case Mpublish(topic, bodies) => Plain(topic) && 4 + |SizedAll(bodies)| < 0x1_0000_0000
    case Ready(_) => true
    case Finish(id) => Plain(id)
    case Requeue(id, _) => Plain(id)
    case Touch(id) => Plain(id)
    case Nop => true
    case Cls => true
    case Auth(secret) => Fits(SecretOf(secret))
  }

  predicate AllWellFormed(cs: seq<Command>) {
    forall i :: 0 <= i < |cs| ==> WellFormed(cs[i])
  }

  function CanonicalAll(cs: seq<Command>): (ds: seq<Command>)
    ensures |ds| == |cs|
  {
    seq(|cs|, i requires 0 <= i < |cs| => Canonical(cs[i]))
  }

  // ---------------------------------------------------------------- blocks

  lemma TakeSizedRoundTrip(b: seq<byte>, rest: seq<byte>)
    requires Fits(b)
    ensures TakeSized(Sized(b) + rest) == Some((b, rest))
  {
    Power256Four();
    BigEndianExact(|b|, 4);
    var all := Sized(b) + rest;
    assert all[..4] == BigEndian(|b|, 4);
    assert all[4..4 + |b|] == b;
    assert all[4 + |b|..] == rest;
  }

  lemma {:induction false} SizedAllBounds(bodies: seq<seq<byte>>)
    ensures 4 * |bodies| <= |SizedAll(bodies)|
    ensures bodies != [] ==> |SizedAll(bodies)| == 4 + |bodies[0]| + |SizedAll(bodies[1..])|
  {
    if bodies != [] {
      SizedAllBounds(bodies[1..]);
    }
  }

  lemma {:induction false} TakeBodiesRoundTrip(bodies: seq<seq<byte>>)
    requires |SizedAll(bodies)| < 0x1_0000_0000
    ensures TakeBodies(SizedAll(bodies), |bodies|) == Some(bodies)
  {
    if bodies != [] {
      SizedAllBounds(bodies);
      TakeSizedRoundTrip(bodies[0], SizedAll(bodies[1..]));
      TakeBodiesRoundTrip(bodies[1..]);
      assert [bodies[0]] + bodies[1..] == bodies;
    }
  }

  lemma TakeMessagesRoundTrip(bodies: seq<seq<byte>>)
    requires 4 + |SizedAll(bodies)| < 0x1_0000_0000
    ensures TakeMessages(BigEndian(|bodies|, 4) + SizedAll(bodies)) == Some(bodies)
  {
    Power256Four();
    SizedAllBounds(bodies);
    BigEndianExact(|bodies|, 4);
    TakeBodiesRoundTrip(bodies);
    var block := BigEndian(|bodies|, 4) + SizedAll(bodies);
    assert block[..4] == BigEndian(|bodies|, 4) && block[4..] == SizedAll(bodies);
  }

  // ---------------------------------------------------------------- one command

  lemma {:induction false} DecimalIsPlain(n: nat)
    ensures Plain(Decimal(n))
  {
    var b := Decimal(n);
    assert forall i :: 0 <= i < |b| ==> IsDigit(b[i]);
  }

  lemma HeaderIsPlain(c: Command)
    requires WellFormed(c)
    ensures AllPlain(Header(c))
  {
    if c.DelayedPublish? || c.Requeue? {
      DecimalIsPlain(c.delay);
    } else if c.Ready? {
      DecimalIsPlain(c.count);
    }
  }

  /** A line of plain words is read as these words, whatever follows. */
  lemma ParseLine(words: seq<seq<byte>>, rest: seq<byte>)
    requires words != [] && AllPlain(words)
    ensures Parse(Join(words) + [NEWLINE] + rest) == Interpret(words, rest)
  {
    var line := Join(words);
    JoinHasNoNewline(words);
    SplitJoin(words);
    IndexOfFirst(line, NEWLINE, rest);
    var b := line + [NEWLINE] + rest;
    assert b[..|line|] == line && b[|line| + 1..] == rest;
  }

  /** The block of commands that have one. */
  function BlockOf(c: Command): seq<byte> {
    match c
    case Identify(json) => json
    case Publish(_, body) => body
    case DelayedPublish(_, body, _) => body
    case Mpublish(_, bodies) => BigEndian(|bodies|, 4) + SizedAll(bodies)
    case Auth(secret) => SecretOf(secret)
    case _ => []
  }

  lemma WordsParse(c: Command)
    requires WellFormed(c)
    ensures if HasBlock(Header(c)[0])
            then Payload(c) == Sized(BlockOf(c)) && Fits(BlockOf(c))
                 && WithBlock(Header(c), BlockOf(c)) == Some(Canonical(c))
            else Payload(c) == [] && LineOnly(Header(c)) == Some(Canonical(c))
  {
    if c.DelayedPublish? || c.Requeue? {
      U32RoundTrip(c.delay);
    } else if c.Ready? {
      U32RoundTrip(c.count);
    } else if c.Mpublish? {
      TakeMessagesRoundTrip(c.bodies);
    }
  }

  lemma InterpretOwn(c: Command, rest: seq<byte>)
    requires WellFormed(c)
    ensures Interpret(Header(c), Payload(c) + rest) == Some((Canonical(c), rest))
  {
    WordsParse(c);
    if HasBlock(Header(c)[0]) {
      TakeSizedRoundTrip(BlockOf(c), rest);
    } else {
      assert Payload(c) + rest == rest;
    }
  }

  lemma EncodeThen(c: Command, rest: seq<byte>)
    ensures Encode(c) + rest == Join(Header(c)) + [NEWLINE] + (Payload(c) + rest)
  {
  }

  lemma ParseEncode(c: Command, rest: seq<byte>)
    requires WellFormed(c)
    ensures Parse(Encode(c) + rest) == Some((Canonical(c), rest))
  {
    HeaderIsPlain(c);
    EncodeThen(c, rest);
    ParseLine(Header(c), Payload(c) + rest);
    InterpretOwn(c, rest);
  }

  /** Whatever the parser accepts is well-formed. */
  lemma ParsedIsWellFormed(b: seq<byte>)
    requires Parse(b).Some?
    ensures WellFormed(Parse(b).value.0) && Canonical(Parse(b).value.0) == Parse(b).value.0
  {
    var i := IndexOf(b, NEWLINE);
    SplitIsPlain(b[..i]);
    InterpretedIsWellFormed(Split(b[..i]), b[i + 1..]);
  }

  lemma InterpretedIsWellFormed(words: seq<seq<byte>>, rest: seq<byte>)
    requires words != [] && AllPlain(words) && Interpret(words, rest).Some?
    ensures var c := Interpret(words, rest).value.0; WellFormed(c) && Canonical(c) == c
  {
    if HasBlock(words[0]) {
      BlockIsWellFormed(words, TakeSized(rest).value.0);
    } else {
      LineIsWellFormed(words);
    }
  }

  lemma BlockIsWellFormed(words: seq<seq<byte>>, block: seq<byte>)
    requires AllPlain(words) && Fits(block) && WithBlock(words, block).Some?
    ensures var c := WithBlock(words, block).value; WellFormed(c) && Canonical(c) == c
  {
  }

  lemma LineIsWellFormed(words: seq<seq<byte>>)
    requires AllPlain(words) && LineOnly(words).Some?
    ensures var c := LineOnly(words).value; WellFormed(c) && Canonical(c) == c
  {
  }

  /** A printed command is read back, exactly if it is well-formed. */
  lemma RoundTripIffWellFormed(c: Command, rest: seq<byte>)
    ensures Parse(Encode(c) + rest) == Some((Canonical(c), rest)) <==> WellFormed(c)
  {
    if WellFormed(c) {
      ParseEncode(c, rest);
    } else if Parse(Encode(c) + rest) == Some((Canonical(c), rest)) {
      ParsedIsWellFormed(Encode(c) + rest);
    }
  }

  // ---------------------------------------------------------------- streams

  lemma ParseAllStep(c: Command, rest: seq<byte>)
    requires WellFormed(c) && ParseAll(rest).Some?
    ensures ParseAll(Encode(c) + rest) == Some([Canonical(c)] + ParseAll(rest).value)
  {
    ParseEncode(c, rest);
    assert |Encode(c) + rest| > 0;
  }

  lemma CanonicalAllStep(cs: seq<Command>)
    requires cs != []
    ensures [Canonical(cs[0])] + CanonicalAll(cs[1..]) == CanonicalAll(cs)
  {
  }

  lemma {:induction false} ParseAllEncodeAll(cs: seq<Command>)
    requires AllWellFormed(cs)
    ensures ParseAll(EncodeAll(cs)) == Some(CanonicalAll(cs))
  {
    if cs != [] {
      ParseAllEncodeAll(cs[1..]);
      ParseAllStep(cs[0], EncodeAll(cs[1..]));
      CanonicalAllStep(cs);
    }
  }

  lemma {:induction false} AllParsedWellFormed(b: seq<byte>)
    requires ParseAll(b).Some?
    ensures AllWellFormed(ParseAll(b).value)
    decreases |b|
  {
    if b != [] {
      ParsedIsWellFormed(b);
      AllParsedWellFormed(Parse(b).value.1);
    }
  }

  /** The stream of any commands parses back to those commands, exactly if they are all well-formed. */
  lemma StreamRoundTripIffWellFormed(cs: seq<Command>)
    ensures ParseAll(EncodeAll(cs)) == Some(CanonicalAll(cs)) <==> AllWellFormed(cs)
  {
    if AllWellFormed(cs) {
      ParseAllEncodeAll(cs);
    } else if ParseAll(EncodeAll(cs)) == Some(CanonicalAll(cs)) {
      AllParsedWellFormed(EncodeAll(cs));
      forall i | 0 <= i < |cs|
        ensures WellFormed(cs[i])
      {
        assert WellFormed(CanonicalAll(cs)[i]);
      }
    }
  }

  /** So no two streams of well-formed commands print the same, but for Auth without a secret. */
  lemma UniqueDecoding(cs: seq<Command>, ds: seq<Command>)
    requires AllWellFormed(cs) && AllWellFormed(ds) && EncodeAll(cs) == EncodeAll(ds)
    ensures CanonicalAll(cs) == CanonicalAll(ds)
  {
    ParseAllEncodeAll(cs);
    ParseAllEncodeAll(ds);
  }

  lemma {:induction false} EncodeAllConcat(cs: seq<Command>, ds: seq<Command>)
    ensures EncodeAll(cs + ds) == EncodeAll(cs) + EncodeAll(ds)
  {
    if cs == [] {
      assert cs + ds == ds;
    } else {
      assert (cs + ds)[1..] == cs[1..] + ds;
      EncodeAllConcat(cs[1..], ds);
    }
  }

  // ---------------------------------------------------------------- the shortest text

  lemma ParseU32Shortest(b: seq<byte>)
    requires ParseU32(b).Some?
    ensures |Decimal(ParseU32(b).value)| <= |b|
  {
    DecimalIsShortest(b);
  }

  lemma LineIsShortest(words: seq<seq<byte>>)
    requires words != [] && !HasBlock(words[0]) && LineOnly(words).Some?
    ensures var c := LineOnly(words).value; Payload(c) == [] && |Join(Header(c))| <= |Join(words)|
  {
    var c := LineOnly(words).value;
    if c.Ready? {
      ParseU32Shortest(words[1]);
      assert Header(c) == words[1 := Decimal(c.count)];
      JoinShorter(words, 1, Decimal(c.count));
    } else if c.Requeue? {
      ParseU32Shortest(words[2]);
      assert Header(c) == words[2 := Decimal(c.delay)];
      JoinShorter(words, 2, Decimal(c.delay));
    } else {
      assert Header(c) == words;
    }
  }

  lemma BlockIsShortest(words: seq<seq<byte>>, block: seq<byte>)
    requires words != [] && HasBlock(words[0]) && WithBlock(words, block).Some?
    ensures var c := WithBlock(words, block).value;
            |Payload(c)| <= |block| + 4 && |Join(Header(c))| <= |Join(words)|
  {
    var c := WithBlock(words, block).value;
    if c.DelayedPublish? {
      ParseU32Shortest(words[2]);
      assert Header(c) == words[2 := Decimal(c.delay)];
      JoinShorter(words, 2, Decimal(c.delay));
    } else {
      assert Header(c) == words;
    }
  }

  /** The parser takes at least as many bytes for a command as the client prints for it. */
  lemma ParseTakesEnough(b: seq<byte>)
    requires Parse(b).Some?
    ensures |Encode(Parse(b).value.0)| + |Parse(b).value.1| <= |b|
  {
    var i := IndexOf(b, NEWLINE);
    var words, rest := Split(b[..i]), b[i + 1..];
    JoinSplit(b[..i]);
    if HasBlock(words[0]) {
      BlockIsShortest(words, TakeSized(rest).value.0);
    } else {
      LineIsShortest(words);
    }
  }

  lemma {:induction false} ParseAllTakesEnough(b: seq<byte>)
    requires ParseAll(b).Some?
    ensures |EncodeAll(ParseAll(b).value)| <= |b|
    decreases |b|
  {
    if b != [] {
      ParseTakesEnough(b);
      ParseAllTakesEnough(Parse(b).value.1);
    }
  }

  lemma {:induction false} CanonicalIsAsLong(cs: seq<Command>)
    ensures |EncodeAll(CanonicalAll(cs))| == |EncodeAll(cs)|
  {
    if cs != [] {
      CanonicalIsAsLong(cs[1..]);
      CanonicalAllStep(cs);
      assert |Encode(Canonical(cs[0]))| == |Encode(cs[0])|;
    }
  }

  /** A stream that the server reads as certain commands is not shorter than what a client prints for them. */
  lemma NothingShorter(b: seq<byte>, cs: seq<Command>)
    requires ParseAll(b) == Some(CanonicalAll(cs))
    ensures |EncodeAll(cs)| <= |b|
  {
    ParseAllTakesEnough(b);
    CanonicalIsAsLong(cs);
  }
}
