/**
 Flipped bits: each bit of a frame moves the syndrome by a power of x of its
 own, so that no one or two flipped bits go unnoticed.
 */
module BitErrors {
  import opened Words
  import opened Crc
  import opened CrcPowers
  import opened PolynomialOrder
  import opened Codec
  import opened Detection

  function BitMask(b: nat): byte
    requires b < 8
  {
    match b
    case 0 => 1
    case 1 => 2
    case 2 => 4
    case 3 => 8
    case 4 => 16
    case 5 => 32
    case 6 => 64
    case 7 => 128
  }

  /* s with bit i flipped; bit 0 of each byte is its least significant one. */
  function FlipBit(s: seq<byte>, i: nat): (t: seq<byte>)
    requires i < 8 * |s|
    ensures |t| == |s|
  {
    s[i / 8 := s[i / 8] ^ BitMask(i % 8)]
  }

  // ----- single bits are powers of x -----

  lemma NextPower(k: nat, v: word, w: word)
    requires Power(k) == v && v & 1 == 0 && w == v >> 1
    ensures Power(k + 1) == w
  {
  }

  function LaneBit(b: nat, n: nat): word
    requires b < 8 && n < 4
  {
    Lane(BitMask(b), n)
  }

  lemma FirstLanePowers()
    ensures Power(0) == 0x8000_0000 && Power(1) == 0x4000_0000 && Power(2) == 0x2000_0000 && Power(3) == 0x1000_0000
    ensures Power(4) == 0x0800_0000 && Power(5) == 0x0400_0000 && Power(6) == 0x0200_0000 && Power(7) == 0x0100_0000
  {
    NextPower(0, 0x8000_0000, 0x4000_0000);
    NextPower(1, 0x4000_0000, 0x2000_0000);
    NextPower(2, 0x2000_0000, 0x1000_0000);
    NextPower(3, 0x1000_0000, 0x0800_0000);
    NextPower(4, 0x0800_0000, 0x0400_0000);
    NextPower(5, 0x0400_0000, 0x0200_0000);
    NextPower(6, 0x0200_0000, 0x0100_0000);
  }

  lemma SecondLanePowers()
    ensures Power(8) == 0x0080_0000 && Power(9) == 0x0040_0000 && Power(10) == 0x0020_0000 && Power(11) == 0x0010_0000
    ensures Power(12) == 0x0008_0000 && Power(13) == 0x0004_0000 && Power(14) == 0x0002_0000 && Power(15) == 0x0001_0000
  {
    FirstLanePowers();
    NextPower(7, 0x0100_0000, 0x0080_0000);
    NextPower(8, 0x0080_0000, 0x0040_0000);
    NextPower(9, 0x0040_0000, 0x0020_0000);
    NextPower(10, 0x0020_0000, 0x0010_0000);
    NextPower(11, 0x0010_0000, 0x0008_0000);
    NextPower(12, 0x0008_0000, 0x0004_0000);
    NextPower(13, 0x0004_0000, 0x0002_0000);
    NextPower(14, 0x0002_0000, 0x0001_0000);
  }

  lemma ThirdLanePowers()
    ensures Power(16) == 0x0000_8000 && Power(17) == 0x0000_4000 && Power(18) == 0x0000_2000 && Power(19) == 0x0000_1000
    ensures Power(20) == 0x0000_0800 && Power(21) == 0x0000_0400 && Power(22) == 0x0000_0200 && Power(23) == 0x0000_0100
  {
    SecondLanePowers();
    NextPower(15, 0x0001_0000, 0x0000_8000);
    NextPower(16, 0x0000_8000, 0x0000_4000);
    NextPower(17, 0x0000_4000, 0x0000_2000);
    NextPower(18, 0x0000_2000, 0x0000_1000);
    NextPower(19, 0x0000_1000, 0x0000_0800);
    NextPower(20, 0x0000_0800, 0x0000_0400);
    NextPower(21, 0x0000_0400, 0x0000_0200);
    NextPower(22, 0x0000_0200, 0x0000_0100);
  }

  lemma FourthLanePowers()
    ensures Power(24) == 0x0000_0080 && Power(25) == 0x0000_0040 && Power(26) == 0x0000_0020 && Power(27) == 0x0000_0010
    ensures Power(28) == 0x0000_0008 && Power(29) == 0x0000_0004 && Power(30) == 0x0000_0002 && Power(31) == 0x0000_0001
  {
    ThirdLanePowers();
    NextPower(23, 0x0000_0100, 0x0000_0080);
    NextPower(24, 0x0000_0080, 0x0000_0040);
    NextPower(25, 0x0000_0040, 0x0000_0020);
    NextPower(26, 0x0000_0020, 0x0000_0010);
    NextPower(27, 0x0000_0010, 0x0000_0008);
    NextPower(28, 0x0000_0008, 0x0000_0004);
    NextPower(29, 0x0000_0004, 0x0000_0002);
    NextPower(30, 0x0000_0002, 0x0000_0001);
  }

  /* Bit b of a byte moved up by 8 n bits. */
  lemma LanePower(b: nat, n: nat)
    requires b < 8 && n < 4
    ensures LaneBit(b, n) == Power(31 - 8 * n - b)
  {
    match n
    case 0 => FourthLanePowers();
    case 1 => ThirdLanePowers();
    case 2 => SecondLanePowers();
    case 3 => FirstLanePowers();
  }

  // ----- the effect of one flipped bit -----

  lemma ByteFlip(a: byte, m: byte)
    ensures (a ^ m) ^ a == m && a ^ a == 0
  {
  }

  lemma FlipDifference(s: seq<byte>, i: nat)
    requires i < 8 * |s|
    ensures var d := Difference(FlipBit(s, i), s);
      var k := i / 8;
      d == d[..k] + [BitMask(i % 8)] + d[k + 1..] && Zeros(d[..k]) && Zeros(d[k + 1..])
  {
    hide BitMask;
    var d := Difference(FlipBit(s, i), s);
    ByteFlip(s[i / 8], BitMask(i % 8));
    forall j | 0 <= j < |d| && j != i / 8
      ensures d[j] == 0
    {
      ByteFlip(s[j], 0);
    }
  }

  /* The power of x by which bit i of n bytes of checksum input moves the checksum. */
  function InputPower(n: nat, i: nat): (e: nat)
    requires i < 8 * n
  {
    39 - i % 8 + 8 * (n - 1 - i / 8)
  }

  lemma AbsorbBit(b: nat)
    requires b < 8
    ensures Absorb(0, BitMask(b)) == Power(39 - b)
  {
    LanePower(b, 0);
    XorIdentities(Widen(BitMask(b)));
    PowerAdd(31 - b, 8);
  }

  lemma RegisterOfByte(b: byte)
    ensures Register(0, [b]) == Absorb(0, b)
  {
    assert [b][..0] == [];
  }

  lemma CrcOfFlip(s: seq<byte>, i: nat)
    requires i < 8 * |s|
    ensures Crc32(FlipBit(s, i)) == Xor(Crc32(s), Power(InputPower(|s|, i)))
  {
    hide Xor, Crc32, Shift, BitMask, Absorb;
    var d := Difference(FlipBit(s, i), s);
    var k := i / 8;
    FlipDifference(s, i);
    RegisterAround(d[..k], [BitMask(i % 8)], d[k + 1..]);
    RegisterOfByte(BitMask(i % 8));
    AbsorbBit(i % 8);
    PowerAdd(39 - i % 8, 8 * (|s| - 1 - k));
    CrcDifference(FlipBit(s, i), s);
    Rearrange(Crc32(FlipBit(s, i)), Crc32(s), Power(InputPower(|s|, i)));
  }

  lemma Rearrange(a: word, b: word, c: word)
    requires Xor(a, b) == c
    ensures a == Xor(b, c)
  {
    XorCommutative(b, c);
    XorAssociative(a, b, b);
    XorIdentities(b);
    XorIdentities(a);
  }

  /* The power of x by which bit i of the four checksum bytes moves the checksum field. */
  function FieldPower(i: nat): (e: nat)
    requires i < 32
  {
    8 * (i / 8) + 7 - i % 8
  }

  lemma FlipFirst(a: byte, b: byte, c: byte, d: byte, m: byte)
    ensures Join(a ^ m, b, c, d) == Xor(Join(a, b, c, d), Lane(m, 3))
  {
  }

  lemma FlipSecond(a: byte, b: byte, c: byte, d: byte, m: byte)
    ensures Join(a, b ^ m, c, d) == Xor(Join(a, b, c, d), Lane(m, 2))
  {
  }

  lemma FlipThird(a: byte, b: byte, c: byte, d: byte, m: byte)
    ensures Join(a, b, c ^ m, d) == Xor(Join(a, b, c, d), Lane(m, 1))
  {
  }

  lemma FlipFourth(a: byte, b: byte, c: byte, d: byte, m: byte)
    ensures Join(a, b, c, d ^ m) == Xor(Join(a, b, c, d), Lane(m, 0))
  {
  }

  lemma LaneFlip(s: seq<byte>, k: nat, m: byte)
    requires |s| == 4 && k < 4
    ensures JoinWord(s[k := s[k] ^ m]) == Xor(JoinWord(s), Lane(m, 3 - k))
  {
    hide Join, Xor, Lane;
    match k
    case 0 => FlipFirst(s[0], s[1], s[2], s[3], m);
    case 1 => FlipSecond(s[0], s[1], s[2], s[3], m);
    case 2 => FlipThird(s[0], s[1], s[2], s[3], m);
    case 3 => FlipFourth(s[0], s[1], s[2], s[3], m);
  }

  lemma FieldOfFlip(s: seq<byte>, i: nat)
    requires |s| == 4 && i < 32
    ensures JoinWord(FlipBit(s, i)) == Xor(JoinWord(s), Power(FieldPower(i)))
  {
    LaneFlip(s, i / 8, BitMask(i % 8));
    LanePower(i % 8, 3 - i / 8);
    assert 31 - 8 * (3 - i / 8) - i % 8 == FieldPower(i);
  }

  // ----- frames -----

  function CrcInput(f: seq<byte>): (s: seq<byte>)
    requires |f| >= HEADER_SIZE
    ensures |s| == |f| - 4
  {
    f[..12] + f[16..]
  }

  /* Zero exactly when the checksum of f is right. */
  function Syndrome(f: seq<byte>): word
    requires |f| >= HEADER_SIZE
  {
    Xor(Crc32(CrcInput(f)), JoinWord(f[12..16]))
  }

  /* The power of x by which bit i of a frame of n bytes moves the syndrome. */
  function BitPower(n: nat, i: nat): (e: nat)
    requires n >= HEADER_SIZE && i < 8 * n
  {
    if i < 96 then InputPower(n - 4, i)
    else if i < 128 then FieldPower(i - 96)
    else InputPower(n - 4, i - 32)
  }

  lemma BitPowersDistinct(n: nat, i: nat, j: nat)
    requires n >= HEADER_SIZE && i < j < 8 * n
    ensures BitPower(n, i) != BitPower(n, j)
  {
  }

  lemma BitPowerBound(n: nat, i: nat)
    requires n >= HEADER_SIZE && i < 8 * n
    ensures BitPower(n, i) < 8 * n
  {
  }

  lemma SyndromeOfFlip(f: seq<byte>, i: nat)
    requires |f| >= HEADER_SIZE && i < 8 * |f|
    ensures Syndrome(FlipBit(f, i)) == Xor(Syndrome(f), Power(BitPower(|f|, i)))
  {
    hide Xor, JoinWord, Crc32, Power;
    var g := FlipBit(f, i);
    var input, field := CrcInput(f), JoinWord(f[12..16]);
    var p := Power(BitPower(|f|, i));
    if 96 <= i < 128 {
      assert CrcInput(g) == input;
      assert g[12..16] == FlipBit(f[12..16], i - 96);
      FieldOfFlip(f[12..16], i - 96);
      XorAssociative(Crc32(input), field, p);
    } else {
      var k := if i < 96 then i else i - 32;
      assert CrcInput(g) == FlipBit(input, k);
      assert g[12..16] == f[12..16];
      CrcOfFlip(input, k);
      MoveLast(Crc32(input), p, field);
    }
  }

  lemma MoveLast(a: word, p: word, b: word)
    ensures Xor(Xor(a, p), b) == Xor(Xor(a, b), p)
  {
    XorAssociative(a, p, b);
    XorCommutative(p, b);
    XorAssociative(a, b, p);
  }

  lemma FrameSlices(p: Packet)
    requires Encodable(p)
    ensures CrcInput(Frame(p)) == Prefix(p) + p.payload
    ensures Frame(p)[12..16] == Header(p)[12..16]
  {
    hide Crc32, SplitWord, ToWord;
    assert Frame(p)[..12] == Frame(p)[..16][..12];
    assert Frame(p)[12..16] == Frame(p)[..16][12..16];
  }

  lemma SyndromeOfFrame(p: Packet)
    requires Encodable(p)
    ensures Syndrome(Frame(p)) == 0
  {
    FrameSlices(p);
    HeaderFields(p);
    XorIdentities(Checksum(p));
  }

  /* Only a string with syndrome zero can be decoded. */
  lemma DecodedSyndrome(header: seq<byte>, payload: seq<byte>)
    requires Decode(header, payload).Ok?
    ensures |header| == HEADER_SIZE && Syndrome(header + payload) == 0
  {
    FrameOfDecode(header, payload);
    SyndromeOfFrame(Decode(header, payload).value);
  }

  /* The damage the checksum is there for: one or two flipped bits. */
  predicate OneOrTwoBitsFlipped(f: seq<byte>, g: seq<byte>) {
    exists i: nat, j: nat :: i < 8 * |f| && j < 8 * |f| && FlippedAt(f, g, i, j)
  }

  predicate FlippedAt(f: seq<byte>, g: seq<byte>, i: nat, j: nat)
    requires i < 8 * |f| && j < 8 * |f|
  {
    if i == j then g == FlipBit(f, i) else g == FlipBit(FlipBit(f, i), j)
  }

  lemma FlipsShowInSyndrome(p: Packet, g: seq<byte>, i: nat, j: nat)
    requires Encodable(p) && i < 8 * |Frame(p)| && j < 8 * |Frame(p)| && FlippedAt(Frame(p), g, i, j)
    ensures |g| == |Frame(p)| && Syndrome(g) != 0
  {
    var f := Frame(p);
    var n := |f|;
    SyndromeOfFrame(p);
    SyndromeOfFlip(f, i);
    XorIdentities(Power(BitPower(n, i)));
    if i == j {
      NonzeroStays(ONE, BitPower(n, i));
    } else {
      SyndromeOfFlip(FlipBit(f, i), j);
      BitPowersDistinct(n, if i < j then i else j, if i < j then j else i);
      BitPowerBound(n, i);
      BitPowerBound(n, j);
      var a, b := BitPower(n, i), BitPower(n, j);
      PowersDistinct(if a < b then a else b, if a < b then b else a);
      if Syndrome(g) == 0 {
        EqualWhenCancelling(Power(a), Power(b));
      }
    }
  }

  /* A frame with one or two bits flipped, wherever they are, is not decoded. */
  lemma BitErrorsRejected(p: Packet, g: seq<byte>)
    requires Encodable(p) && OneOrTwoBitsFlipped(Frame(p), g)
    ensures |g| == |Frame(p)| && Decode(g[..16], g[16..]).Err?
    ensures ReceiveDatagram(g).Err?
  {
    hide Syndrome, Decode, Frame, FlipBit;
    var i: nat, j: nat :| i < 8 * |Frame(p)| && j < 8 * |Frame(p)| && FlippedAt(Frame(p), g, i, j);
    FlipsShowInSyndrome(p, g, i, j);
    assert g[..16] + g[16..] == g;
    if Decode(g[..16], g[16..]).Ok? {
      DecodedSyndrome(g[..16], g[16..]);
    }
    if ReceiveDatagram(g).Ok? {
      DatagramDecodes(g);
    }
  }

  lemma BurstShowsInSyndrome(f: seq<byte>, g: seq<byte>, i: nat)
    requires |f| == |g| >= HEADER_SIZE && f != g && f[12..16] == g[12..16]
    requires DifferOnlyInWindow(CrcInput(f), CrcInput(g), i)
    ensures Syndrome(f) != Syndrome(g)
  {
    hide Crc32, CrcInput;
    if CrcInput(f) == CrcInput(g) {
      InputAndField(f, g);
    }
    BurstChangesCrc(CrcInput(f), CrcInput(g), i);
    SameSum(Crc32(CrcInput(f)), Crc32(CrcInput(g)), JoinWord(f[12..16]));
  }

  lemma SameSum(a: word, b: word, c: word)
    ensures Xor(a, c) == Xor(b, c) ==> a == b
  {
    XorCancel(a, b, c);
    XorIdentities(Xor(a, c));
    if Xor(a, c) == Xor(b, c) {
      EqualWhenCancelling(a, b);
    }
  }

  /* A frame damaged only within four consecutive bytes of its checksum input is not decoded. */
  lemma BurstRejected(p: Packet, g: seq<byte>, i: nat)
    requires Encodable(p) && |g| == |Frame(p)| && g != Frame(p)
    requires g[12..16] == Frame(p)[12..16]
    requires DifferOnlyInWindow(CrcInput(Frame(p)), CrcInput(g), i)
    ensures Decode(g[..16], g[16..]).Err?
  {
    hide Syndrome, Decode, CrcInput;
    BurstShowsInSyndrome(Frame(p), g, i);
    SyndromeOfFrame(p);
    assert g[..16] + g[16..] == g;
    if Decode(g[..16], g[16..]).Ok? {
      DecodedSyndrome(g[..16], g[16..]);
    }
  }

  lemma InputAndField(f: seq<byte>, g: seq<byte>)
    requires |f| == |g| >= HEADER_SIZE && f[12..16] == g[12..16] && CrcInput(f) == CrcInput(g)
    ensures f == g
  {
    assert f == CrcInput(f)[..12] + f[12..16] + CrcInput(f)[12..];
    assert g == CrcInput(g)[..12] + g[12..16] + CrcInput(g)[12..];
  }

  // ----- deliberate damage -----

  /* What the proxy's corruption makes of a frame: the first payload byte inverted. */
  function Damaged(p: Packet): (g: seq<byte>)
    requires Encodable(p) && p.payload != []
    ensures |g| == |Frame(p)|
  {
    var f := Frame(p);
    f[HEADER_SIZE := f[HEADER_SIZE] ^ 0xFF]
  }

  lemma Inverted(b: byte)
    ensures b ^ 0xFF != b
  {
  }

  /* A deliberately damaged frame keeps its header, and its checksum gives it away. */
  lemma DamagedRejected(p: Packet)
    requires Encodable(p) && p.payload != []
    ensures Damaged(p)[..16] == Frame(p)[..16]
    ensures Decode(Damaged(p)[..16], Damaged(p)[16..]) == Err(CrcMismatch)
  {
    hide Frame, CrcInput, Crc32, JoinWord, SplitWord;
    var f, g := Frame(p), Damaged(p);
    Inverted(f[16]);
    DamageWindow(f, g);
    BurstRejected(p, g, 12);
    DecodeOfFrame(p);
  }

  lemma DamageWindow(f: seq<byte>, g: seq<byte>)
    requires |f| == |g| > HEADER_SIZE && g == f[HEADER_SIZE := g[HEADER_SIZE]]
    ensures g[12..16] == f[12..16] && DifferOnlyInWindow(CrcInput(f), CrcInput(g), 12)
  {
  }
}
