/** The commands a client sends, and how they are printed. */
module Commands {
  import opened Tally
  import opened Bytes

  /** Strings are their UTF-8 bytes; the JSON of IDENTIFY is opaque. */
  datatype Command =
    | Identify(json: seq<byte>)
    | Subscribe(topic: seq<byte>, channel: seq<byte>)
    | Publish(topic: seq<byte>, body: seq<byte>)
    | DelayedPublish(topic: seq<byte>, body: seq<byte>, delay: u32)
    | Mpublish(topic: seq<byte>, bodies: seq<seq<byte>>)
    | Ready(count: u32)
    | Finish(id: seq<byte>)
    | Requeue(id: seq<byte>, delay: u32)
    | Touch(id: seq<byte>)
    | Nop
    | Cls
    | Auth(secret: Option<seq<byte>>)

  const IDENTIFY: seq<byte> := [73, 68, 69, 78, 84, 73, 70, 89]
  const SUB: seq<byte> := [83, 85, 66]
  const PUB: seq<byte> := [80, 85, 66]
  const DPUB: seq<byte> := [68, 80, 85, 66]
  const MPUB: seq<byte> := [77, 80, 85, 66]
  const RDY: seq<byte> := [82, 68, 89]
  const FIN: seq<byte> := [70, 73, 78]
  const REQ: seq<byte> := [82, 69, 81]
  const TOUCH: seq<byte> := [84, 79, 85, 67, 72]
  const NOP: seq<byte> := [78, 79, 80]
  const CLS: seq<byte> := [67, 76, 83]
  const AUTH: seq<byte> := [65, 85, 84, 72]
  const MAGIC_V2: seq<byte> := [32, 32, 86, 50]

  /** The words of the command line. */
  function Header(c: Command): (words: seq<seq<byte>>)
    ensures words != []
  {
    match c
    case Identify(_) => [IDENTIFY]
    case Subscribe(topic, channel) => [SUB, topic, channel]
    case Publish(topic, _) => [PUB, topic]
    case DelayedPublish(topic, _, delay) => [DPUB, topic, Decimal(delay)]
    case Mpublish(topic, _) => [MPUB, topic]
    case Ready(count) => [RDY, Decimal(count)]
    case Finish(id) => [FIN, id]
    case Requeue(id, delay) => [REQ, id, Decimal(delay)]
    case Touch(id) => [TOUCH, id]
    case Nop => [NOP]
    case Cls => [CLS]
    case Auth(_) => [AUTH]
  }

  /** A field of bytes behind its length; the length is cast to 32 bits. */
  function Sized(b: seq<byte>): seq<byte> {
    BigEndian(|b|, 4) + b
  }

  function SizedAll(bodies: seq<seq<byte>>): seq<byte> {
    if bodies == [] then [] else Sized(bodies[0]) + SizedAll(bodies[1..])
  }

  /** What follows the command line. */
  function Payload(c: Command): seq<byte> {
    match c
    case Identify(json) => Sized(json)
    case Publish(_, body) => Sized(body)
    case DelayedPublish(_, body, _) => Sized(body)
    case Mpublish(_, bodies) => Sized(BigEndian(|bodies|, 4) + SizedAll(bodies))
    case Auth(secret) => Sized(SecretOf(secret))
    case _ => []
  }

  function SecretOf(secret: Option<seq<byte>>): seq<byte> {
    match secret case Some(s) => s case None => []
  }

  function Encode(c: Command): (b: seq<byte>)
    ensures b != []
  {
    Join(Header(c)) + [NEWLINE] + Payload(c)
  }

  function EncodeAll(cs: seq<Command>): seq<byte> {
    if cs == [] then [] else Encode(cs[0]) + EncodeAll(cs[1..])
  }

  /** Auth without a secret prints like Auth with an empty one. */
  function Canonical(c: Command): Command {
    if c == Auth(None) then Auth(Some([])) else c
  }

  lemma {:induction false} SizedAllAppend(bodies: seq<seq<byte>>, body: seq<byte>)
    ensures SizedAll(bodies + [body]) == SizedAll(bodies) + Sized(body)
  {
    if bodies == [] {
      assert ([body])[1..] == [];
    } else {
      assert (bodies + [body])[1..] == bodies[1..] + [body];
      SizedAllAppend(bodies[1..], body);
    }
  }

  lemma SizedAllPrefix(bodies: seq<seq<byte>>, i: nat)
    requires i < |bodies|
    ensures SizedAll(bodies[..i + 1]) == SizedAll(bodies[..i]) + Sized(bodies[i])
  {
    assert bodies[..i + 1] == bodies[..i] + [bodies[i]];
    SizedAllAppend(bodies[..i], bodies[i]);
  }

  /** The command line, written out. */
  lemma HeaderLine(c: Command)
    ensures Join(Header(c)) ==
              match c
              case Identify(_) => IDENTIFY
              case Subscribe(topic, channel) => SUB + [SPACE] + topic + [SPACE] + channel
              case Publish(topic, _) => PUB + [SPACE] + topic
              case DelayedPublish(topic, _, delay) => DPUB + [SPACE] + topic + [SPACE] + Decimal(delay)
              case Mpublish(topic, _) => MPUB + [SPACE] + topic
              case Ready(count) => RDY + [SPACE] + Decimal(count)
              case Finish(id) => FIN + [SPACE] + id
              case Requeue(id, delay) => REQ + [SPACE] + id + [SPACE] + Decimal(delay)
              case Touch(id) => TOUCH + [SPACE] + id
              case Nop => NOP
              case Cls => CLS
              case Auth(_) => AUTH
  {
    var words := Header(c);
    if |words| == 2 {
      JoinTwo(words[0], words[1]);
      assert words == [words[0], words[1]];
    } else if |words| == 3 {
      JoinThree(words[0], words[1], words[2]);
      assert words == [words[0], words[1], words[2]];
    }
  }

  /** The size of an MPUB payload, as the loop of `to_bytes` adds it up. */
  method TotalSize(bodies: seq<seq<byte>>) returns (totalSize: nat)
    ensures totalSize == |BigEndian(|bodies|, 4) + SizedAll(bodies)|
  {
    totalSize := 4;
    for i := 0 to |bodies|
      invariant totalSize == 4 + |SizedAll(bodies[..i])|
    {
      SizedAllPrefix(bodies, i);
      totalSize := totalSize + 4 + |bodies[i]|;
    }
    assert bodies[..|bodies|] == bodies;
  }

  method AppendBodies(buf: seq<byte>, bodies: seq<seq<byte>>) returns (r: seq<byte>)
    ensures r == buf + SizedAll(bodies)
  {
    r := buf;
    for i := 0 to |bodies|
      invariant r == buf + SizedAll(bodies[..i])
    {
      SizedAllPrefix(bodies, i);
      r := r + BigEndian(|bodies[i]|, 4);
      r := r + bodies[i];
    }
    assert bodies[..|bodies|] == bodies;
  }

  /** `Command::to_bytes`: the buffer is appended to, piece by piece, and the size of an MPUB is added
      up before its bodies are written. */
  method ToBytes(c: Command) returns (buf: seq<byte>)
    ensures buf == Encode(c)
  {
    HeaderLine(c);
    match c {
      case Identify(json) =>
        buf := IDENTIFY + [NEWLINE];
        buf := buf + BigEndian(|json|, 4);
        buf := buf + json;
      case Subscribe(topic, channel) =>
        buf := SUB + [SPACE] + topic + [SPACE] + channel + [NEWLINE];
      case Publish(topic, body) =>
        buf := PUB + [SPACE] + topic + [NEWLINE];
        buf := buf + BigEndian(|body|, 4);
        buf := buf + body;
      case DelayedPublish(topic, body, delay) =>
        buf := DPUB + [SPACE] + topic + [SPACE] + Decimal(delay) + [NEWLINE];
        buf := buf + BigEndian(|body|, 4);
        buf := buf + body;
      case Mpublish(topic, bodies) =>
        buf := MPUB + [SPACE] + topic + [NEWLINE];
        var totalSize := TotalSize(bodies);
        buf := buf + BigEndian(totalSize, 4);
        buf := buf + BigEndian(|bodies|, 4);
        buf := AppendBodies(buf, bodies);
      case Ready(count) =>
        buf := RDY + [SPACE] + Decimal(count) + [NEWLINE];
      case Finish(id) =>
        buf := FIN + [SPACE] + id + [NEWLINE];
      case Requeue(id, delay) =>
        buf := REQ + [SPACE] + id + [SPACE] + Decimal(delay) + [NEWLINE];
      case Touch(id) =>
        buf := TOUCH + [SPACE] + id + [NEWLINE];
      case Nop =>
        buf := NOP + [NEWLINE];
      case Cls =>
        buf := CLS + [NEWLINE];
      case Auth(secret) =>
        buf := AUTH + [NEWLINE];
        if secret.Some? {
          buf := buf + BigEndian(|secret.value|, 4);
          buf := buf + secret.value;
        } else {
          buf := buf + BigEndian(0, 4);
        }
    }
  }
}
