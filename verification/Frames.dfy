/** The frames a client receives: the three decoders of the source, the encoder they belong to, and
    how they agree. */
module Frames {
  import opened Tally
  import opened Bytes
  import opened Commands
  import opened CommandParser
  import opened Utf8

  datatype Message = Message(timestamp: u64, attempts: u16, id: seq<byte>, body: seq<byte>)

  datatype Frame = Response(data: seq<byte>) | ErrorFrame(data: seq<byte>) | MessageFrame(msg: Message)

  datatype FrameType = ResponseType | ErrorType | MessageType

  datatype Error =
    | Eof                               // the stream or the cursor ends
    | Incomplete                        // too few bytes for a frame
    | InvalidFrameSize
    | InvalidFrameType(frameType: int)
    | UnknownFrameType(raw: u32)
    | TooShort                          // too few bytes for a message

  /** Panicked is a slice index out of range. */
  datatype Outcome<+T> = Ok(value: T) | Err(error: Error) | Panicked
  {
    predicate IsFailure() {
      !Ok?
    }

    function PropagateFailure<U>(): Outcome<U>
      requires IsFailure()
    {
      match this case Err(e) => Err(e) case Panicked => Panicked
    }

    function Extract(): T
      requires !IsFailure()
    {
      value
    }
  }

  /** Indexing by a range, which panics out of bounds. */
  function Slice(b: seq<byte>, from: nat, to: nat): (r: Outcome<seq<byte>>)
    ensures r.Ok? <==> from <= to <= |b|
    ensures r.Ok? ==> r.value == b[from..to]
    ensures !r.Err?
  {
    if from <= to <= |b| then Ok(b[from..to]) else Panicked
  }

  // ---------------------------------------------------------------- the decoders

  function Take(b: seq<byte>, from: nat, n: nat): nat
    requires from + n <= |b|
  {
    FromBigEndian(b[from..from + n])
  }

  /** `Protocol::decode_message`: it checks for four bytes and slices what it needs. */
  function DecodeMessage(data: seq<byte>): Outcome<Message> {
    if |data| < 4 then Err(InvalidFrameSize)
    else
      var timestamp :- Slice(data, 0, 8);
      var attempts :- Slice(data, 8, 10);
      var id :- Slice(data, 10, 26);
      var body :- Slice(data, 26, |data|);
      Power256Four();
      Power256Eight();
      Ok(Message(FromBigEndian(timestamp), FromBigEndian(attempts), id, body))
  }

  /** A 32-bit pattern read as a signed number. */
  function Signed(n: u32): int {
    if n < 0x8000_0000 then n else n - 0x1_0000_0000
  }

  function TakeU32(b: seq<byte>, from: nat): u32
    requires from + 4 <= |b|
  {
    Power256Four();
    Take(b, from, 4)
  }

  /** `Protocol::decode_frame`, on a frame without its size. */
  function DecodeFrame(data: seq<byte>): Outcome<Frame> {
    if |data| < 4 then Err(InvalidFrameSize)
    else
      match Signed(TakeU32(data, 0))
      case 0 => Ok(Response(data[4..]))
      case 1 => Ok(ErrorFrame(data[4..]))
      case 2 =>
        var msg :- DecodeMessage(data[4..]);
        Ok(MessageFrame(msg))
      case t => Err(InvalidFrameType(t))
  }

  function FrameTypeOf(n: u32): Outcome<FrameType> {
    match n
    case 0 => Ok(ResponseType)
    case 1 => Ok(ErrorType)
    case 2 => Ok(MessageType)
    case _ => Err(UnknownFrameType(n))
  }

  /** `protocol::read_frame`: type and payload of the frame at the start of data. */
  function ReadFrame(data: seq<byte>): Outcome<(FrameType, seq<byte>)> {
    if |data| < 8 then Err(Incomplete)
    else
      var size := TakeU32(data, 0);
      if |data| < size + 4 then Err(Incomplete)
      else
        var t :- FrameTypeOf(TakeU32(data, 4));
        var payload :- Slice(data, 8, size + 4);
        Ok((t, payload))
  }

  /** `Message::from_bytes`, on a whole frame; the size field is skipped. */
  function FromBytes(b: seq<byte>): Outcome<Message> {
    if |b| < 26 then Err(TooShort)
    else if TakeU32(b, 4) != 2 then Err(UnknownFrameType(TakeU32(b, 4)))
    else if |b| < 34 then Err(Eof)
    else DecodeMessage(b[8..])
  }

  /** `Connection::read_frame` on a stream that ends after b: the frame, and what is left. */
  function NextFrame(b: seq<byte>): (Outcome<Frame>, seq<byte>) {
    if |b| < 4 then (Err(Eof), [])
    else
      var size := TakeU32(b, 0);
      if size < 4 then (Err(InvalidFrameSize), b[4..])
      else if |b| < 8 then (Err(Eof), [])
      else
        var t := Signed(TakeU32(b, 4));
        if !(0 <= t <= 2) then (Err(InvalidFrameType(t)), b[8..])
        else if |b| < 4 + size then (Err(Eof), [])
        else (DecodeFrame(b[4..4 + size]), b[4 + size..])
  }

  // ---------------------------------------------------------------- as the source runs them

  /** The cursor of `from_bytes` moves field by field. */
  method FromBytesByCursor(b: seq<byte>) returns (r: Outcome<Message>)
    ensures r == FromBytes(b)
  {
    if |b| < 26 {
      return Err(TooShort);
    }
    var position := 4;
    var frameType := TakeU32(b, position);
    position := position + 4;
    if frameType != 2 {
      return Err(UnknownFrameType(frameType));
    }
    Power256Four();
    Power256Eight();
    var timestamp := Take(b, position, 8);
    position := position + 8;
    var attempts := Take(b, position, 2);
    position := position + 2;
    if |b| < position + 16 {
      return Err(Eof);
    }
    var id := b[position..position + 16];
    position := position + 16;
    var body := b[position..];
    assert b[8..][0..8] == b[8..16] && b[8..][8..10] == b[16..18];
    assert b[8..][10..26] == id && b[8..][26..|b[8..]|] == body;
    return Ok(Message(timestamp, attempts, id, body));
  }

  // ---------------------------------------------------------------- the encoder

  function EncodeMessage(m: Message): seq<byte> {
    BigEndian(m.timestamp, 8) + BigEndian(m.attempts, 2) + m.id + m.body
  }

  function TypeNumber(f: Frame): nat {
    match f case Response(_) => 0 case ErrorFrame(_) => 1 case MessageFrame(_) => 2
  }

  function PayloadOf(f: Frame): seq<byte> {
    match f
    case Response(data) => data
    case ErrorFrame(data) => data
    case MessageFrame(m) => EncodeMessage(m)
  }

  /** Size, type, payload; the size counts the type and the payload. */
  function EncodeFrame(f: Frame): seq<byte> {
    BigEndian(4 + |PayloadOf(f)|, 4) + BigEndian(TypeNumber(f), 4) + PayloadOf(f)
  }

  function EncodeFrames(fs: seq<Frame>): seq<byte> {
    if fs == [] then [] else EncodeFrame(fs[0]) + EncodeFrames(fs[1..])
  }

  /** A frame whose size fits its field, and a message with a 16-byte id. */
  predicate Sendable(f: Frame) {
    4 + |PayloadOf(f)| < 0x1_0000_0000 && (f.MessageFrame? ==> |f.msg.id| == 16)
  }

  // ---------------------------------------------------------------- round trips

  lemma FourFields(timestamp: seq<byte>, attempts: seq<byte>, id: seq<byte>, body: seq<byte>)
    requires |timestamp| == 8 && |attempts| == 2 && |id| == 16
    ensures var b := timestamp + attempts + id + body;
            && |b| == 26 + |body| && b[0..8] == timestamp && b[8..10] == attempts && b[10..26] == id && b[26..] == body
  {
  }

  lemma AllFields(b: seq<byte>)
    requires |b| >= 26
    ensures b == b[0..8] + b[8..10] + b[10..26] + b[26..]
  {
  }

  /** Decoding a message payload is the inverse of encoding it, both ways. */
  lemma MessageRoundTrip(m: Message)
    requires |m.id| == 16
    ensures DecodeMessage(EncodeMessage(m)) == Ok(m)
  {
    var timestamp, attempts := BigEndian(m.timestamp, 8), BigEndian(m.attempts, 2);
    Power256Four();
    Power256Eight();
    BigEndianExact(m.timestamp, 8);
    BigEndianExact(m.attempts, 2);
    FourFields(timestamp, attempts, m.id, m.body);
    assert EncodeMessage(m)[26..|EncodeMessage(m)|] == EncodeMessage(m)[26..];
  }

  lemma MessageReencodes(data: seq<byte>)
    requires |data| >= 26
    ensures DecodeMessage(data).Ok? && EncodeMessage(DecodeMessage(data).value) == data
  {
    BigEndianOf(data[0..8]);
    BigEndianOf(data[8..10]);
    AllFields(data);
    assert data[26..|data|] == data[26..];
  }

  /** The decoder panics on exactly the payloads of 4 to 25 bytes. */
  lemma MessagePanics(data: seq<byte>)
    ensures DecodeMessage(data).Panicked? <==> 4 <= |data| < 26
    ensures DecodeMessage(data).Ok? <==> |data| >= 26
  {
  }

  lemma FrameFields(f: Frame, rest: seq<byte>)
    requires Sendable(f)
    ensures var b, n := EncodeFrame(f) + rest, |PayloadOf(f)|;
            && |EncodeFrame(f)| == 8 + n && TakeU32(b, 0) == 4 + n && TakeU32(b, 4) == TypeNumber(f)
            && b[8..8 + n] == PayloadOf(f) && b[8 + n..] == rest
            && b[4..8 + n] == BigEndian(TypeNumber(f), 4) + PayloadOf(f)
  {
    var n, payload := |PayloadOf(f)|, PayloadOf(f);
    var head, kind := BigEndian(4 + n, 4), BigEndian(TypeNumber(f), 4);
    Power256Four();
    BigEndianExact(4 + n, 4);
    BigEndianExact(TypeNumber(f), 4);
    FourParts(head, kind, payload, rest);
  }

  lemma FourParts(head: seq<byte>, kind: seq<byte>, payload: seq<byte>, rest: seq<byte>)
    requires |head| == 4 && |kind| == 4
    ensures var b, n := head + kind + payload + rest, |payload|;
            && b[0..4] == head && b[4..8] == kind && b[8..8 + n] == payload && b[8 + n..] == rest
            && b[4..8 + n] == kind + payload
  {
  }

  lemma DecodeOwn(f: Frame)
    requires Sendable(f)
    ensures DecodeFrame(BigEndian(TypeNumber(f), 4) + PayloadOf(f)) == Ok(f)
  {
    var data := BigEndian(TypeNumber(f), 4) + PayloadOf(f);
    Power256Four();
    BigEndianExact(TypeNumber(f), 4);
    assert data[0..4] == BigEndian(TypeNumber(f), 4) && data[4..] == PayloadOf(f);
    if f.MessageFrame? {
      MessageRoundTrip(f.msg);
    }
  }

  /** One read takes one frame off the stream, size + 4 bytes of it. */
  lemma NextFrameRoundTrip(f: Frame, rest: seq<byte>)
    requires Sendable(f)
    ensures NextFrame(EncodeFrame(f) + rest) == (Ok(f), rest)
  {
    FrameFields(f, rest);
    DecodeOwn(f);
  }

  /** n reads. */
  function NextFrames(b: seq<byte>, n: nat): (seq<Outcome<Frame>>, seq<byte>)
    decreases n
  {
    if n == 0 then ([], b)
    else
      var (r, rest) := NextFrame(b);
      var (rs, rest') := NextFrames(rest, n - 1);
      ([r] + rs, rest')
  }

  function AllOk(fs: seq<Frame>): seq<Outcome<Frame>> {
    seq(|fs|, i requires 0 <= i < |fs| => Ok(fs[i]))
  }

  lemma AllOkStep(fs: seq<Frame>)
    requires fs != []
    ensures AllOk(fs) == [Ok(fs[0])] + AllOk(fs[1..])
  {
  }

  lemma EncodeFramesStep(fs: seq<Frame>, rest: seq<byte>)
    requires fs != []
    ensures EncodeFrames(fs) + rest == EncodeFrame(fs[0]) + (EncodeFrames(fs[1..]) + rest)
  {
  }

  /** Frames that are sent one behind the other are read one by one, and nothing of what follows. */
  lemma {:induction false} FrameStreamRoundTrip(fs: seq<Frame>, rest: seq<byte>)
    requires forall i :: 0 <= i < |fs| ==> Sendable(fs[i])
    ensures NextFrames(EncodeFrames(fs) + rest, |fs|) == (AllOk(fs), rest)
    decreases |fs|
  {
    if fs == [] {
      assert EncodeFrames(fs) + rest == rest;
      assert AllOk(fs) == [];
    } else {
      EncodeFramesStep(fs, rest);
      AllOkStep(fs);
      NextFrameRoundTrip(fs[0], EncodeFrames(fs[1..]) + rest);
      FrameStreamRoundTrip(fs[1..], rest);
      ReadOneMore(EncodeFrames(fs) + rest, |fs|, fs[0], EncodeFrames(fs[1..]) + rest);
    }
  }

  lemma ReadOneMore(b: seq<byte>, n: nat, f: Frame, after: seq<byte>)
    requires n > 0 && NextFrame(b) == (Ok(f), after)
    ensures NextFrames(b, n) == ([Ok(f)] + NextFrames(after, n - 1).0, NextFrames(after, n - 1).1)
  {
  }

  // ---------------------------------------------------------------- agreement on all bytes

  function FrameTypeOfFrame(f: Frame): FrameType {
    match f case Response(_) => ResponseType case ErrorFrame(_) => ErrorType case MessageFrame(_) => MessageType
  }

  /** The frame that a type and a payload make. */
  function FrameOf(t: FrameType, payload: seq<byte>): Outcome<Frame> {
    match t
    case ResponseType => Ok(Response(payload))
    case ErrorType => Ok(ErrorFrame(payload))
    case MessageType =>
      var msg :- DecodeMessage(payload);
      Ok(MessageFrame(msg))
  }

  /** What the slice decoder accepts is what the stream decoder reads, with the same payload; and the
      stream decoder reads nothing else. */
  lemma SliceAgreesWithStream(b: seq<byte>)
    ensures ReadFrame(b).Ok? ==>
              NextFrame(b) == (FrameOf(ReadFrame(b).value.0, ReadFrame(b).value.1),
                               b[8 + |ReadFrame(b).value.1|..])
    ensures !ReadFrame(b).Ok? ==> NextFrame(b).0.Err?
  {
    if ReadFrame(b).Ok? {
      var size := TakeU32(b, 0);
      SameType(b, size);
      assert b[4..4 + size][4..] == b[8..size + 4];
    }
  }

  lemma SameType(b: seq<byte>, size: nat)
    requires 4 <= size && 4 + size <= |b|
    ensures TakeU32(b[4..4 + size], 0) == TakeU32(b, 4)
  {
    assert b[4..4 + size][0..4] == b[4..8];
  }

  /** The slice decoder indexes out of range on exactly the frames of a known type that declare a size
      below 4; the stream decoder refuses these. */
  lemma SlicePanics(b: seq<byte>)
    ensures ReadFrame(b).Panicked? <==>
              |b| >= 8 && TakeU32(b, 0) < 4 && TakeU32(b, 4) <= 2
    ensures ReadFrame(b).Panicked? ==> NextFrame(b) == (Err(InvalidFrameSize), b[4..])
  {
  }

  /** A successful read took exactly the encoding of its frame off the stream: a frame has one encoding. */
  lemma ReadIffEncoded(b: seq<byte>, f: Frame, rest: seq<byte>)
    ensures NextFrame(b) == (Ok(f), rest) <==> Sendable(f) && b == EncodeFrame(f) + rest
  {
    if Sendable(f) && b == EncodeFrame(f) + rest {
      NextFrameRoundTrip(f, rest);
    } else if NextFrame(b) == (Ok(f), rest) {
      ReadIsEncoded(b, f, rest);
    }
  }

  lemma ReadIsEncoded(b: seq<byte>, f: Frame, rest: seq<byte>)
    requires NextFrame(b) == (Ok(f), rest)
    ensures Sendable(f) && b == EncodeFrame(f) + rest
  {
    SliceAgreesWithStream(b);
    var (t, payload) := ReadFrame(b).value;
    var size := TakeU32(b, 0);
    assert FrameOf(t, payload) == Ok(f);
    PayloadBack(t, payload, f);
    BigEndianOf(b[0..4]);
    BigEndianOf(b[4..8]);
    assert b == b[0..4] + b[4..8] + b[8..size + 4] + b[size + 4..];
  }

  lemma PayloadBack(t: FrameType, payload: seq<byte>, f: Frame)
    requires FrameOf(t, payload) == Ok(f)
    ensures PayloadOf(f) == payload && FrameTypeOfFrame(f) == t && (f.MessageFrame? ==> |f.msg.id| == 16)
  {
    if t.MessageType? {
      MessagePanics(payload);
      MessageReencodes(payload);
    }
  }

  /** `from_bytes` accepts exactly the byte strings of 34 bytes and more with type 2, and reads the same
      message as the stream decoder, but its body runs to the end of the bytes. */
  lemma FromBytesAgrees(b: seq<byte>)
    ensures FromBytes(b).Ok? <==> |b| >= 34 && TakeU32(b, 4) == 2
    ensures !FromBytes(b).Panicked?
    ensures NextFrame(b).0.Ok? && NextFrame(b).0.value.MessageFrame? ==>
              var (r, rest) := NextFrame(b);
              FromBytes(b) == Ok(r.value.msg.(body := r.value.msg.body + rest))
  {
    var (r, rest) := NextFrame(b);
    if r.Ok? && r.value.MessageFrame? {
      ReadIsEncoded(b, r.value, rest);
      var m := r.value.msg;
      var whole := m.(body := m.body + rest);
      FrameFields(r.value, rest);
      assert b[8..] == EncodeMessage(whole) by {
        assert b[8..] == PayloadOf(r.value) + rest;
        MoreBody(m, rest);
      }
      MessageRoundTrip(whole);
    }
  }

  lemma MoreBody(m: Message, rest: seq<byte>)
    ensures EncodeMessage(m) + rest == EncodeMessage(m.(body := m.body + rest))
  {
  }

  // ---------------------------------------------------------------- answers

  /** `Message::id_string`. */
  function IdString(m: Message): seq<byte> {
    Lossy(m.id)
  }

  /** The same answer with another id. */
  function WithId(answer: Command, id: seq<byte>): Command
    requires answer.Finish? || answer.Requeue? || answer.Touch?
  {
    answer.(id := id)
  }

  /** An answer that names its id as a string is read with the id itself, exactly if the id is valid UTF-8
      without space and newline. */
  lemma AnswerNamesId(answer: Command, rest: seq<byte>)
    requires answer.Finish? || answer.Requeue? || answer.Touch?
    ensures Parse(Encode(WithId(answer, Lossy(answer.id))) + rest) == Some((answer, rest)) <==>
              Plain(answer.id) && Valid(answer.id)
  {
    var id, sent := answer.id, WithId(answer, Lossy(answer.id));
    LossyIffValid(id);
    if Parse(Encode(sent) + rest) == Some((answer, rest)) {
      ParsedIsWellFormed(Encode(sent) + rest);
      LossyIsPlain(id);
      ParseEncode(sent, rest);
    } else if Plain(id) && Valid(id) {
      ParseEncode(answer, rest);
    }
  }

  lemma MessageIdIs(b: seq<byte>)
    requires NextFrame(b).0.Ok? && NextFrame(b).0.value.MessageFrame?
    ensures |b| >= 34 && NextFrame(b).0.value.msg.id == b[18..34]
  {
    var (r, after) := NextFrame(b);
    ReadIsEncoded(b, r.value, after);
    FrameFields(r.value, after);
    assert PayloadOf(r.value)[10..26] == r.value.msg.id;
  }

  /** The FIN, REQ and TOUCH for a received message name the id that stood in bytes 18 to 33 of its frame,
      exactly if that id is valid UTF-8 without space and newline. */
  lemma AnswerCarriesId(b: seq<byte>, delay: u32, rest: seq<byte>)
    requires NextFrame(b).0.Ok? && NextFrame(b).0.value.MessageFrame?
    ensures |b| >= 34
    ensures var id := IdString(NextFrame(b).0.value.msg);
            var named := Plain(b[18..34]) && Valid(b[18..34]);
            && (Parse(Encode(Finish(id)) + rest) == Some((Finish(b[18..34]), rest)) <==> named)
            && (Parse(Encode(Requeue(id, delay)) + rest) == Some((Requeue(b[18..34], delay), rest)) <==> named)
            && (Parse(Encode(Touch(id)) + rest) == Some((Touch(b[18..34]), rest)) <==> named)
  {
    var m := NextFrame(b).0.value.msg;
    MessageIdIs(b);
    AnswerNamesId(Finish(m.id), rest);
    AnswerNamesId(Requeue(m.id, delay), rest);
    AnswerNamesId(Touch(m.id), rest);
  }

  /** Ids of printable ASCII are always named; the server's are hexadecimal digits. */
  lemma AsciiIdIsNamed(b: seq<byte>, delay: u32, rest: seq<byte>)
    requires NextFrame(b).0.Ok? && NextFrame(b).0.value.MessageFrame?
    requires var id := NextFrame(b).0.value.msg.id; forall i :: 0 <= i < |id| ==> 32 < id[i] < 127
    ensures |b| >= 34
    ensures var id := IdString(NextFrame(b).0.value.msg);
            && Parse(Encode(Finish(id)) + rest) == Some((Finish(b[18..34]), rest))
            && Parse(Encode(Requeue(id, delay)) + rest) == Some((Requeue(b[18..34], delay), rest))
            && Parse(Encode(Touch(id)) + rest) == Some((Touch(b[18..34]), rest))
  {
    AnswerCarriesId(b, delay, rest);
    MessageIdIs(b);
    AsciiIsValid(b[18..34]);
  }
}
