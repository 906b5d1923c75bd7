/** Bytes, big-endian integers, decimal numerals and words: the pieces the wire format is made of. */
module Bytes {
  import opened Tally
  import opened Numbers

  type byte = x: int | 0 <= x < 256

  type u16 = x: int | 0 <= x < 0x1_0000

  type u32 = x: int | 0 <= x < 0x1_0000_0000

  type u64 = x: int | 0 <= x < 0x1_0000_0000_0000_0000

  const SPACE: byte := 32
  const NEWLINE: byte := 10

  // ---------------------------------------------------------------- big-endian integers

  function Power256(k: nat): (p: nat)
    ensures p > 0
  {
    if k == 0 then 1 else 256 * Power256(k - 1)
  }

  /** The last k bytes of n, most significant first. */
  function BigEndian(n: nat, k: nat): (b: seq<byte>)
    ensures |b| == k
  {
    if k == 0 then [] else BigEndian(n / 256, k - 1) + [n % 256]
  }

  function FromBigEndian(b: seq<byte>): (n: nat)
    ensures n < Power256(|b|)
  {
    if b == [] then 0 else FromBigEndian(b[..|b| - 1]) * 256 + b[|b| - 1]
  }

  /** A k-byte field holds a number modulo 256^k. */
  lemma {:induction false} BigEndianTruncates(n: nat, k: nat)
    ensures FromBigEndian(BigEndian(n, k)) == n % Power256(k)
  {
    if k > 0 {
      BigEndianTruncates(n / 256, k - 1);
      ModSplit(n, Power256(k - 1));
      assert BigEndian(n, k)[..k - 1] == BigEndian(n / 256, k - 1);
    }
  }

  lemma BigEndianExact(n: nat, k: nat)
    requires n < Power256(k)
    ensures FromBigEndian(BigEndian(n, k)) == n
  {
    BigEndianTruncates(n, k);
    DivModUnique(n, Power256(k), 0, n);
  }

  /** And every k-byte field is the printed form of the number it holds. */
  lemma {:induction false} BigEndianOf(b: seq<byte>)
    ensures BigEndian(FromBigEndian(b), |b|) == b
  {
    if b != [] {
      BigEndianOf(b[..|b| - 1]);
    }
  }

  lemma Power256Four()
    ensures Power256(2) == 0x1_0000 && Power256(4) == 0x1_0000_0000
  {
    assert Power256(1) == 256;
    assert Power256(3) == 0x100_0000;
  }

  lemma Power256Eight()
    ensures Power256(8) == 0x1_0000_0000_0000_0000
  {
    Power256Four();
    assert Power256(5) == 0x100_0000_0000;
    assert Power256(6) == 0x1_0000_0000_0000;
    assert Power256(7) == 0x100_0000_0000_0000;
  }

  /** A cast from i32. */
  function AsU32(n: int): u32
    requires -0x8000_0000 <= n < 0x8000_0000
  {
    if n >= 0 then n else n + 0x1_0000_0000
  }

  // ---------------------------------------------------------------- decimal numerals

  predicate IsDigit(c: byte) {
    48 <= c <= 57
  }

  function Decimal(n: nat): (b: seq<byte>)
    ensures b != [] && forall i :: 0 <= i < |b| ==> IsDigit(b[i])
  {
    if n < 10 then [48 + n] else Decimal(n / 10) + [48 + n % 10]
  }

  function DecimalValue(b: seq<byte>): nat
    requires forall i :: 0 <= i < |b| ==> IsDigit(b[i])
  {
    if b == [] then 0
    else
      assert IsDigit(b[|b| - 1]);
      10 * DecimalValue(b[..|b| - 1]) + (b[|b| - 1] as int - 48)
  }

  lemma {:induction false} DecimalRoundTrip(n: nat)
    ensures DecimalValue(Decimal(n)) == n
  {
    if n >= 10 {
      DecimalRoundTrip(n / 10);
      assert Decimal(n)[..|Decimal(n)| - 1] == Decimal(n / 10);
    }
  }

  /** No numeral of a number is shorter than the printed one. */
  lemma {:induction false} DecimalIsShortest(b: seq<byte>)
    requires b != [] && forall i :: 0 <= i < |b| ==> IsDigit(b[i])
    ensures |Decimal(DecimalValue(b))| <= |b|
  {
    var n := DecimalValue(b);
    if n >= 10 {
      var most := b[..|b| - 1];
      assert DecimalValue([]) == 0;
      assert IsDigit(b[|b| - 1]);
      assert n == 10 * DecimalValue(most) + (b[|b| - 1] as int - 48);
      assert n / 10 == DecimalValue(most);
      DecimalIsShortest(most);
    }
  }

  /** A numeral of an unsigned 32-bit number. */
  function ParseU32(b: seq<byte>): Option<u32> {
    if b != [] && (forall i :: 0 <= i < |b| ==> IsDigit(b[i])) && DecimalValue(b) < 0x1_0000_0000
    then Some(DecimalValue(b))
    else None
  }

  lemma U32RoundTrip(n: u32)
    ensures ParseU32(Decimal(n)) == Some(n)
  {
    DecimalRoundTrip(n);
  }

  // ---------------------------------------------------------------- words

  /** The first position of x, or the length. */
  function IndexOf(b: seq<byte>, x: byte): (i: nat)
    ensures i <= |b| && x !in b[..i] && (i < |b| ==> b[i] == x)
  {
    if b == [] || b[0] == x then 0 else 1 + IndexOf(b[1..], x)
  }

  lemma {:induction false} IndexOfFirst(a: seq<byte>, x: byte, rest: seq<byte>)
    requires x !in a
    ensures IndexOf(a + [x] + rest, x) == |a|
  {
    var i := IndexOf(a + [x] + rest, x);
    assert (a + [x] + rest)[|a|] == x;
    assert forall k :: 0 <= k < |a| ==> (a + [x] + rest)[k] == a[k];
  }

  function Join(words: seq<seq<byte>>): seq<byte> {
    if words == [] then []
    else if |words| == 1 then words[0]
    else words[0] + [SPACE] + Join(words[1..])
  }

  lemma JoinTwo(a: seq<byte>, b: seq<byte>)
    ensures Join([a, b]) == a + [SPACE] + b
  {
    assert [a, b][1..] == [b];
  }

  lemma JoinThree(a: seq<byte>, b: seq<byte>, c: seq<byte>)
    ensures Join([a, b, c]) == a + [SPACE] + b + [SPACE] + c
  {
    assert [a, b, c][1..] == [b, c];
    JoinTwo(b, c);
  }

  function Split(line: seq<byte>): (words: seq<seq<byte>>)
    ensures words != []
    decreases |line|
  {
    var i := IndexOf(line, SPACE);
    if i == |line| then [line] else [line[..i]] + Split(line[i + 1..])
  }

  predicate Plain(word: seq<byte>) {
    SPACE !in word && NEWLINE !in word
  }

  predicate AllPlain(words: seq<seq<byte>>) {
    forall i :: 0 <= i < |words| ==> Plain(words[i])
  }

  lemma {:induction false} SplitJoin(words: seq<seq<byte>>)
    requires words != [] && AllPlain(words)
    ensures Split(Join(words)) == words
    decreases |words|
  {
    if |words| == 1 {
      assert IndexOf(words[0], SPACE) == |words[0]|;
    } else {
      var rest := Join(words[1..]);
      IndexOfFirst(words[0], SPACE, rest);
      assert (words[0] + [SPACE] + rest)[..|words[0]|] == words[0];
      assert (words[0] + [SPACE] + rest)[|words[0]| + 1..] == rest;
      SplitJoin(words[1..]);
    }
  }

  lemma JoinMore(word: seq<byte>, words: seq<seq<byte>>)
    requires words != []
    ensures Join([word] + words) == word + [SPACE] + Join(words)
  {
    assert ([word] + words)[1..] == words;
  }

  lemma {:induction false} JoinShorter(words: seq<seq<byte>>, i: nat, w: seq<byte>)
    requires i < |words| && |w| <= |words[i]|
    ensures |Join(words[i := w])| <= |Join(words)|
  {
    if i == 0 {
      assert words[i := w][1..] == words[1..];
    } else {
      assert words[i := w][1..] == words[1..][i - 1 := w];
      JoinShorter(words[1..], i - 1, w);
    }
  }

  lemma {:induction false} JoinSplit(line: seq<byte>)
    ensures Join(Split(line)) == line
    decreases |line|
  {
    var i := IndexOf(line, SPACE);
    if i < |line| {
      JoinSplit(line[i + 1..]);
      JoinMore(line[..i], Split(line[i + 1..]));
      assert line == line[..i] + [SPACE] + line[i + 1..];
    }
  }

  lemma {:induction false} JoinHasNoNewline(words: seq<seq<byte>>)
    requires AllPlain(words)
    ensures NEWLINE !in Join(words)
    decreases |words|
  {
    if |words| > 1 {
      JoinHasNoNewline(words[1..]);
    }
  }

  /** The words of a line without newline are plain. */
  lemma {:induction false} SplitIsPlain(line: seq<byte>)
    requires NEWLINE !in line
    ensures AllPlain(Split(line))
    decreases |line|
  {
    var i := IndexOf(line, SPACE);
    if i < |line| {
      SplitIsPlain(line[i + 1..]);
    } else {
      assert line[..i] == line;
    }
  }
}
