/** One NSQ connection, from its handshake on: what it writes and how it reads. */
module ConnectionImplementation {
  import opened Tally
  import opened Bytes
  import opened Commands
  import opened Frames

  /** The commands of the handshake, behind the magic. */
  function Hello(json: seq<byte>, secret: Option<seq<byte>>): seq<Command> {
    [Identify(json)] + if secret.Some? then [Auth(secret)] else []
  }

  datatype Reply = Accepted | Refused | Crashed

  /** How the handshake reads one reply, and what it leaves. Unlike `read_frame` it refuses only a size of
      zero, and subtracts 4 from any other. */
  function ReadReply(b: seq<byte>): (Reply, seq<byte>) {
    if |b| < 4 then (Refused, [])
    else if TakeU32(b, 0) == 0 then (Refused, b[4..])
    else if |b| < 8 then (Refused, [])
    else if TakeU32(b, 4) != 0 then (Refused, b[8..])
    else if TakeU32(b, 0) < 4 then (Crashed, b[8..])
    else if |b| < 4 + TakeU32(b, 0) then (Refused, [])
    else (Accepted, b[4 + TakeU32(b, 0)..])
  }

  /** A reply is accepted if and only if it is a response frame, and the whole frame is then read. */
  lemma AcceptedIffResponse(b: seq<byte>, rest: seq<byte>)
    ensures ReadReply(b) == (Accepted, rest) <==> exists data :: NextFrame(b) == (Ok(Response(data)), rest)
  {
    if ReadReply(b) == (Accepted, rest) {
      SliceAgreesWithStream(b);
      var data := b[8..4 + TakeU32(b, 0)];
      assert NextFrame(b) == (Ok(Response(data)), rest);
    }
    if data :| NextFrame(b) == (Ok(Response(data)), rest) {
      ReadIsEncoded(b, Response(data), rest);
      FrameFields(Response(data), rest);
    }
  }

  /** The replies to the handshake: a second one only if there is a secret and the first was accepted. */
  function Handshake(b: seq<byte>, secret: Option<seq<byte>>): (Reply, seq<byte>) {
    var (first, rest) := ReadReply(b);
    if first != Accepted || secret.None? then (first, rest) else ReadReply(rest)
  }

  /** How much of a write gets out before it fails, if it fails. */
  datatype Fate = Whole | Cut(at: nat)

  /** What gets out. */
  function Out(bytes: seq<byte>, fate: Fate): (out: seq<byte>)
    ensures out <= bytes
  {
    if fate.Cut? && fate.at < |bytes| then bytes[..fate.at] else bytes
  }

  class Connection {
    var wire: seq<byte>         // all that was written
    var inbox: seq<byte>        // what the peer sent and was not read; the stream ends after it
    const json: seq<byte>
    const secret: Option<seq<byte>>

    /** A connection before its handshake. */
    constructor (json: seq<byte>, secret: Option<seq<byte>>, inbox: seq<byte>)
      ensures wire == [] && this.inbox == inbox && this.json == json && this.secret == secret
    {
      this.wire, this.inbox, this.json, this.secret := [], inbox, json, secret;
    }

    /** `read_exact`: n bytes, or the end of the stream. */
    method ReadExact(n: nat) returns (r: Option<seq<byte>>)
      modifies this`inbox
      ensures |old(inbox)| < n ==> r == None && inbox == []
      ensures |old(inbox)| >= n ==> r == Some(old(inbox)[..n]) && inbox == old(inbox)[n..]
    {
      if |inbox| < n {
        inbox := [];
        return None;
      }
      r := Some(inbox[..n]);
      inbox := inbox[n..];
    }

    /** `read_frame`: size, type and data are read one after another. */
    method ReadFrame() returns (r: Outcome<Frame>)
      modifies this`inbox
      ensures (r, inbox) == NextFrame(old(inbox))
    {
      ghost var b := inbox;
      var sizeBuf := ReadExact(4);
      if sizeBuf.None? {
        return Err(Eof);
      }
      var size := TakeU32(sizeBuf.value, 0);
      assert b[0..4] == sizeBuf.value[0..4];
      if size < 4 {
        return Err(InvalidFrameSize);
      }
      var typeBuf := ReadExact(4);
      if typeBuf.None? {
        return Err(Eof);
      }
      var frameType := Signed(TakeU32(typeBuf.value, 0));
      assert b[4..8] == typeBuf.value[0..4];
      if !(0 <= frameType <= 2) {
        return Err(InvalidFrameType(frameType));
      }
      var data := ReadExact(size - 4);
      if data.None? {
        return Err(Eof);
      }
      assert b[4..4 + size] == typeBuf.value + data.value;
      return DecodeFrame(typeBuf.value + data.value);
    }

    /** `write_bytes`, under the write lock; a time-out or an error cuts it. */
    method WriteBytes(bytes: seq<byte>, fate: Fate) returns (ok: bool)
      modifies this`wire
      ensures ok <==> fate.Whole?
      ensures wire == old(wire) + Out(bytes, fate)
    {
      wire := wire + Out(bytes, fate);
      ok := fate.Whole?;
    }

    method SendCommand(c: Command, fate: Fate) returns (ok: bool)
      modifies this`wire
      ensures ok <==> fate.Whole?
      ensures wire == old(wire) + Out(Encode(c), fate)
    {
      var bytes := ToBytes(c);
      ok := WriteBytes(bytes, fate);
    }

    method AwaitReply() returns (r: Reply)
      modifies this`inbox
      ensures (r, inbox) == ReadReply(old(inbox))
    {
      ghost var b := inbox;
      var buf := ReadExact(4);
      if buf.None? {
        return Refused;
      }
      var size := TakeU32(buf.value, 0);
      assert b[0..4] == buf.value[0..4];
      if size == 0 {
        return Refused;
      }
      buf := ReadExact(4);
      if buf.None? {
        return Refused;
      }
      assert b[4..8] == buf.value[0..4];
      if TakeU32(buf.value, 0) != 0 {
        return Refused;
      }
      if size < 4 {
        return Crashed;
      }
      var resp := ReadExact(size - 4);
      if resp.None? {
        return Refused;
      }
      return Accepted;
    }

    /** `initialize`: it succeeds if and only if the writes it makes get out and the peer accepts each.  The
        secret is written only after the first reply, and whatever fails, nothing but the start of the
        handshake is on the wire. */
    method Initialize(magic: Fate, identify: Fate, auth: Fate) returns (r: Reply)
      modifies this`wire, this`inbox
      ensures r == Accepted <==>
                magic.Whole? && identify.Whole? && Handshake(old(inbox), secret).0 == Accepted
                && (secret.Some? ==> auth.Whole?)
      ensures r == Accepted ==>
                && wire == old(wire) + MAGIC_V2 + EncodeAll(Hello(json, secret))
                && inbox == Handshake(old(inbox), secret).1
      ensures magic.Whole? && identify.Whole? && auth.Whole? ==>
                && (r, inbox) == Handshake(old(inbox), secret)
                && wire == old(wire) + MAGIC_V2 +
                           EncodeAll(if ReadReply(old(inbox)).0 == Accepted then Hello(json, secret)
                                     else [Identify(json)])
      ensures magic.Cut? || identify.Cut? ==> r == Refused && inbox == old(inbox)
      ensures old(wire) <= wire <= old(wire) + MAGIC_V2 + EncodeAll(Hello(json, secret))
    {
      HelloBytes(wire, json, secret);
      var ok := WriteBytes(MAGIC_V2, magic);
      if !ok {
        return Refused;
      }
      ok := SendCommand(Identify(json), identify);
      if !ok {
        return Refused;
      }
      r := AwaitReply();
      if r != Accepted || secret.None? {
        return;
      }
      ok := SendCommand(Auth(secret), auth);
      if !ok {
        return Refused;
      }
      r := AwaitReply();
    }
  }

  lemma EncodeOne(c: Command)
    ensures EncodeAll([c]) == Encode(c)
  {
    assert EncodeAll([]) == [];
  }

  lemma EncodeTwo(c: Command, d: Command)
    ensures EncodeAll([c] + [d]) == Encode(c) + Encode(d)
  {
    assert ([c] + [d])[1..] == [d];
    EncodeOne(d);
  }

  lemma BehindOne(wire: seq<byte>, c: Command, d: Command)
    ensures wire + EncodeAll([c]) == wire + Encode(c)
    ensures wire + EncodeAll([c] + [d]) == (wire + Encode(c)) + Encode(d)
  {
    EncodeOne(c);
    EncodeTwo(c, d);
    Associative(wire, Encode(c), Encode(d));
  }

  lemma Associative(a: seq<byte>, b: seq<byte>, c: seq<byte>)
    ensures (a + b) + c == a + (b + c)
  {
  }

  lemma HelloBytes(wire: seq<byte>, json: seq<byte>, secret: Option<seq<byte>>)
    ensures var w := wire + MAGIC_V2 + Encode(Identify(json));
            && wire + MAGIC_V2 + EncodeAll([Identify(json)]) == w
            && wire + MAGIC_V2 + EncodeAll(Hello(json, secret)) == if secret.Some? then w + Encode(Auth(secret)) else w
  {
    BehindOne(wire + MAGIC_V2, Identify(json), Auth(secret));
    if secret.None? {
      assert Hello(json, secret) == [Identify(json)];
    }
  }

  predicate IsReply(b: seq<byte>, data: seq<byte>, rest: seq<byte>) {
    Sendable(Response(data)) && b == EncodeFrame(Response(data)) + rest
  }

  lemma AcceptedIffEncoded(b: seq<byte>, rest: seq<byte>)
    ensures ReadReply(b) == (Accepted, rest) <==> exists data :: IsReply(b, data, rest)
  {
    AcceptedIffResponse(b, rest);
    if data :| NextFrame(b) == (Ok(Response(data)), rest) {
      ReadIffEncoded(b, Response(data), rest);
      assert IsReply(b, data, rest);
    }
    if data :| IsReply(b, data, rest) {
      ReadIffEncoded(b, Response(data), rest);
    }
  }

  /** The handshake succeeds, leaving rest, if and only if the peer sent one response frame for each
      command of the handshake, and then rest. */
  lemma HandshakeReads(b: seq<byte>, secret: Option<seq<byte>>, rest: seq<byte>)
    ensures secret.None? ==>
              (Handshake(b, secret) == (Accepted, rest) <==> exists d :: IsReply(b, d, rest))
    ensures secret.Some? ==>
              (Handshake(b, secret) == (Accepted, rest) <==>
               exists d, mid, e :: IsReply(b, d, mid) && IsReply(mid, e, rest))
  {
    var mid := ReadReply(b).1;
    AcceptedIffEncoded(b, rest);
    AcceptedIffEncoded(b, mid);
    AcceptedIffEncoded(mid, rest);
    if d, mid', e :| IsReply(b, d, mid') && IsReply(mid', e, rest) {
      AcceptedIffEncoded(b, mid');
    }
  }
}
