/**
 The machine integers of the protocol: bytes, 32-bit words, the big-endian
 byte order in which they travel, and sequence numbers as plain integers.
 */
module Words {

  type byte = bv8
  type word = bv32

  /* A uint32 counter value; an integer, so that comparing and counting need no bit-vectors. */
  type u32 = x: int | 0 <= x < 0x1_0000_0000

  /* The two bytes of h, most significant first. */
  function SplitHalf(h: bv16): (s: seq<byte>)
    ensures |s| == 2
  {
    [(h >> 8) as byte, (h & 0xFF) as byte]
  }

  function JoinHalf(s: seq<byte>): bv16
    requires |s| == 2
  {
    (s[0] as bv16 << 8) | (s[1] as bv16)
  }

  /* The four bytes of w, most significant first. */
  function SplitWord(w: word): (s: seq<byte>)
    ensures |s| == 4
  {
    [(w >> 24) as byte, ((w >> 16) & 0xFF) as byte, ((w >> 8) & 0xFF) as byte, (w & 0xFF) as byte]
  }

  function Join(a: byte, b: byte, c: byte, d: byte): word {
    (a as word << 24) | (b as word << 16) | (c as word << 8) | (d as word)
  }

  function JoinWord(s: seq<byte>): word
    requires |s| == 4
  {
    Join(s[0], s[1], s[2], s[3])
  }

  lemma JoinOfSplitHalf(h: bv16)
    ensures JoinHalf(SplitHalf(h)) == h
  {
  }

  lemma SplitOfJoinHalf(s: seq<byte>)
    requires |s| == 2
    ensures SplitHalf(JoinHalf(s)) == s
  {
    HalfBytes(s[0], s[1]);
  }

  lemma HalfBytes(a: byte, b: byte)
    ensures (((a as bv16 << 8) | (b as bv16)) >> 8) as byte == a
    ensures (((a as bv16 << 8) | (b as bv16)) & 0xFF) as byte == b
  {
  }

  lemma JoinOfSplit(w: word)
    ensures JoinWord(SplitWord(w)) == w
  {
  }

  lemma SplitOfJoin(s: seq<byte>)
    requires |s| == 4
    ensures SplitWord(JoinWord(s)) == s
  {
    WordBytes(s[0], s[1], s[2], s[3]);
  }

  lemma WordBytes(a: byte, b: byte, c: byte, d: byte)
    ensures (Join(a, b, c, d) >> 24) as byte == a
    ensures ((Join(a, b, c, d) >> 16) & 0xFF) as byte == b
    ensures ((Join(a, b, c, d) >> 8) & 0xFF) as byte == c
    ensures (Join(a, b, c, d) & 0xFF) as byte == d
  {
  }

  function ByteValue(b: byte): (n: nat)
    ensures n < 256
  {
    b as int
  }

  /* The byte with value n. */
  function ToByte(n: nat): (b: byte)
    requires n < 256
    ensures ByteValue(b) == n
  {
    if n == 0 then 0 else Successor(ToByte(n - 1)); ToByte(n - 1) + 1
  }

  lemma Successor(b: byte)
    requires ByteValue(b) < 255
    ensures ByteValue(b + 1) == ByteValue(b) + 1
  {
  }

  lemma SameValue(a: byte, b: byte)
    requires ByteValue(a) == ByteValue(b)
    ensures a == b
  {
    assert (a as int) as byte == (b as int) as byte;
  }

  /* The base-256 digits of n, most significant first. */
  function Digits(n: u32): (s: seq<nat>)
    ensures |s| == 4 && forall i :: 0 <= i < 4 ==> s[i] < 256
    ensures FromDigits(s[0], s[1], s[2], s[3]) == n
  {
    [n / 256 / 256 / 256, n / 256 / 256 % 256, n / 256 % 256, n % 256]
  }

  function FromDigits(a: nat, b: nat, c: nat, d: nat): int {
    ((a * 256 + b) * 256 + c) * 256 + d
  }

  lemma SameDigits(a: nat, b: nat, c: nat, d: nat, a': nat, b': nat, c': nat, d': nat)
    requires a < 256 && b < 256 && c < 256 && d < 256 && a' < 256 && b' < 256 && c' < 256 && d' < 256
    requires FromDigits(a, b, c, d) == FromDigits(a', b', c', d')
    ensures a == a' && b == b' && c == c' && d == d'
  {
  }

  /* The word with value n. */
  function ToWord(n: u32): word {
    var s := Digits(n);
    Join(ToByte(s[0]), ToByte(s[1]), ToByte(s[2]), ToByte(s[3]))
  }

  /* The value of a word. */
  function Value(w: word): u32 {
    var s := SplitWord(w);
    FromDigits(ByteValue(s[0]), ByteValue(s[1]), ByteValue(s[2]), ByteValue(s[3]))
  }

  lemma ValueOfToWord(n: u32)
    ensures Value(ToWord(n)) == n
  {
    var s := Digits(n);
    WordBytes(ToByte(s[0]), ToByte(s[1]), ToByte(s[2]), ToByte(s[3]));
  }

  /* The number that four bytes stand for when the first counts most. */
  function BigEndian(a: byte, b: byte, c: byte, d: byte): int {
    (a as int) * 0x100_0000 + (b as int) * 0x1_0000 + (c as int) * 0x100 + (d as int)
  }

  lemma ValueIsBigEndian(s: seq<byte>)
    requires |s| == 4
    ensures Value(JoinWord(s)) == BigEndian(s[0], s[1], s[2], s[3])
  {
    SplitOfJoin(s);
  }

  lemma ToWordOfValue(w: word)
    ensures ToWord(Value(w)) == w
  {
    var s, t := SplitWord(w), Digits(Value(w));
    SameDigits(ByteValue(s[0]), ByteValue(s[1]), ByteValue(s[2]), ByteValue(s[3]), t[0], t[1], t[2], t[3]);
    SameValue(s[0], ToByte(t[0]));
    SameValue(s[1], ToByte(t[1]));
    SameValue(s[2], ToByte(t[2]));
    SameValue(s[3], ToByte(t[3]));
    JoinOfSplit(w);
  }
}
