/** Lossy decoding of UTF-8, as `String::from_utf8_lossy` does it: ill-formed parts are replaced by U+FFFD.
    Strings are their UTF-8 bytes, so the result is again a sequence of bytes.  Which sequences are
    well-formed is Table 3-7 of the Unicode Standard. */
module Utf8 {
  import opened Bytes

  const REPLACEMENT: seq<byte> := [0xEF, 0xBF, 0xBD]

  predicate Tail(c: byte) {
    0x80 <= c <= 0xBF
  }

  /** The number of bytes that a first byte announces; 0 if it cannot be one. */
  function Width(c: byte): nat {
    if c <= 0x7F then 1
    else if 0xC2 <= c <= 0xDF then 2
    else if 0xE0 <= c <= 0xEF then 3
    else if 0xF0 <= c <= 0xF4 then 4
    else 0
  }

  /** The second byte; after some first bytes its range is narrower. */
  predicate Second(first: byte, c: byte) {
    if first == 0xE0 then 0xA0 <= c <= 0xBF
    else if first == 0xED then 0x80 <= c <= 0x9F
    else if first == 0xF0 then 0x90 <= c <= 0xBF
    else if first == 0xF4 then 0x80 <= c <= 0x8F
    else Tail(c)
  }

  /** How many bytes at the start of b are as in a character of that width: all, or the part that is replaced
      as a whole. */
  function Good(b: seq<byte>, width: nat): (n: nat)
    requires b != []
    ensures n <= |b|
  {
    if width < 2 || |b| < 2 || !Second(b[0], b[1]) then 1
    else if width < 3 || |b| < 3 || !Tail(b[2]) then 2
    else if width < 4 || |b| < 4 || !Tail(b[3]) then 3
    else 4
  }

  predicate StartsWell(b: seq<byte>)
    requires b != []
  {
    Width(b[0]) > 0 && Good(b, Width(b[0])) == Width(b[0])
  }

  /** The character, or the part to replace. */
  function Step(b: seq<byte>): (n: nat)
    requires b != []
    ensures 0 < n <= |b|
  {
    Good(b, Width(b[0]))
  }

  function Lossy(b: seq<byte>): seq<byte>
    decreases |b|
  {
    if b == [] then []
    else (if StartsWell(b) then b[..Step(b)] else REPLACEMENT) + Lossy(b[Step(b)..])
  }

  predicate Valid(b: seq<byte>)
    decreases |b|
  {
    b == [] || (StartsWell(b) && Valid(b[Step(b)..]))
  }

  lemma {:induction false} ValidIsKept(b: seq<byte>)
    requires Valid(b)
    ensures Lossy(b) == b
    decreases |b|
  {
    if b != [] {
      ValidIsKept(b[Step(b)..]);
      assert b == b[..Step(b)] + b[Step(b)..];
    }
  }

  /** What follows a character does not matter. */
  lemma CharacterStands(c: seq<byte>, rest: seq<byte>)
    requires c != [] && StartsWell(c) && Step(c) == |c|
    ensures StartsWell(c + rest) && Step(c + rest) == |c| && (c + rest)[|c|..] == rest
  {
  }

  lemma FirstCharacter(b: seq<byte>)
    requires b != [] && StartsWell(b)
    ensures var c := b[..Step(b)]; c != [] && StartsWell(c) && Step(c) == |c|
  {
  }

  lemma ReplacementIsValid()
    ensures StartsWell(REPLACEMENT) && Step(REPLACEMENT) == |REPLACEMENT|
  {
  }

  lemma {:induction false} LossyIsValid(b: seq<byte>)
    ensures Valid(Lossy(b))
    decreases |b|
  {
    if b != [] {
      var rest := Lossy(b[Step(b)..]);
      LossyIsValid(b[Step(b)..]);
      if StartsWell(b) {
        FirstCharacter(b);
        CharacterStands(b[..Step(b)], rest);
      } else {
        ReplacementIsValid();
        CharacterStands(REPLACEMENT, rest);
      }
    }
  }

  /** The decoding always yields valid UTF-8, and it changes nothing exactly in what is valid. */
  lemma {:induction false} LossyIffValid(b: seq<byte>)
    ensures Valid(Lossy(b))
    ensures Lossy(b) == b <==> Valid(b)
  {
    LossyIsValid(b);
    if Valid(b) {
      ValidIsKept(b);
    }
  }

  lemma {:induction false} LossyIsPlain(b: seq<byte>)
    requires Plain(b)
    ensures Plain(Lossy(b))
    decreases |b|
  {
    if b != [] {
      LossyIsPlain(b[Step(b)..]);
    }
  }

  /** ASCII is valid. */
  lemma {:induction false} AsciiIsValid(b: seq<byte>)
    requires forall i :: 0 <= i < |b| ==> b[i] < 128
    ensures Valid(b)
    decreases |b|
  {
    if b != [] {
      AsciiIsValid(b[1..]);
    }
  }
}
