/**
 Bursts on whole frames. The checksum travels most significant byte first, so
 that a burst across the end of its field is not one burst of the checksum's
 division: four-byte windows there can hide a change, all others cannot.
 */
module FrameBursts {
  import opened Words
  import opened Crc
  import opened Codec
  import opened Detection
  import opened BitErrors

  /* No change confined to the four bytes of a frame from position i is ever accepted. */
  ghost predicate AlwaysCaught(i: nat) {
    forall p: Packet, g: seq<byte> ::
      Encodable(p) && g != Frame(p) && DifferOnlyInWindow(Frame(p), g, i) ==> Decode(g[..16], g[16..]).Err?
  }

  lemma SameInputSameField(p: Packet, q: Packet)
    requires Encodable(p) && Encodable(q) && |p.payload| == |q.payload|
    requires Frame(p)[..12] == Frame(q)[..12] && p.payload == q.payload
    ensures Frame(p) == Frame(q)
  {
    hide Crc32, SplitWord, Prefix;
    assert Prefix(p) == Frame(p)[..16][..12] == Frame(p)[..12];
    assert Prefix(q) == Frame(q)[..16][..12] == Frame(q)[..12];
  }

  lemma LengthBytes(p: Packet)
    requires Encodable(p)
    ensures Frame(p)[8..12] == SplitWord(ToWord(|p.payload|))
  {
    hide SplitWord, ToWord, Checksum;
    HeaderSlices(p);
    assert Frame(p)[8..12] == Frame(p)[..16][8..12];
  }

  lemma PayloadBytes(p: Packet)
    requires Encodable(p)
    ensures Frame(p)[16..] == p.payload
  {
    hide SplitWord, ToWord, Checksum;
    assert Frame(p) == Header(p) + p.payload;
  }

  /* A window that ends within the checksum field: the lengths agree, and so does the rest of the header. */
  lemma FramesApartEarly(p: Packet, q: Packet, i: nat)
    requires Encodable(p) && Encodable(q) && DifferOnlyInWindow(Frame(p), Frame(q), i) && 8 < i <= 12
    ensures Frame(p) == Frame(q)
  {
    hide Frame, DifferOnlyInWindow;
    SameLength(Frame(p), Frame(q), i);
    LengthBytes(p);
    LengthBytes(q);
    PayloadBytes(p);
    PayloadBytes(q);
    HeadAgrees(Frame(p), Frame(q), i);
    SameInputSameField(p, q);
  }

  lemma HeadAgrees(f: seq<byte>, g: seq<byte>, i: nat)
    requires |f| >= HEADER_SIZE && DifferOnlyInWindow(f, g, i) && 8 < i <= 12 && f[8..12] == g[8..12]
    ensures f[..12] == g[..12] && f[16..] == g[16..]
  {
    forall k | 8 <= k < 12
      ensures f[k] == g[k]
    {
      assert f[k] == f[8..12][k - 8] == g[8..12][k - 8] == g[k];
    }
  }

  /* Different frames never differ only within a four-byte window, unless it crosses the end of the checksum. */
  lemma FramesApart(p: Packet, q: Packet, i: nat)
    requires Encodable(p) && Encodable(q) && Frame(p) != Frame(q)
    requires DifferOnlyInWindow(Frame(p), Frame(q), i)
    ensures 13 <= i <= 15
  {
    hide Frame, Decode, CrcInput, DifferOnlyInWindow;
    SameLength(Frame(p), Frame(q), i);
    DecodeOfFrame(q);
    if i <= 8 {
      WindowInHeader(Frame(p), Frame(q), i);
      BurstRejected(p, Frame(q), i);
    } else if i >= 16 {
      WindowInPayload(Frame(p), Frame(q), i);
      BurstRejected(p, Frame(q), i - 4);
    } else if i <= 12 {
      FramesApartEarly(p, q, i);
    }
  }

  lemma SameLength(f: seq<byte>, g: seq<byte>, i: nat)
    requires DifferOnlyInWindow(f, g, i)
    ensures |f| == |g|
  {
  }

  lemma WindowInHeader(f: seq<byte>, g: seq<byte>, i: nat)
    requires |f| >= HEADER_SIZE && DifferOnlyInWindow(f, g, i) && i <= 8
    ensures f[12..16] == g[12..16] && DifferOnlyInWindow(CrcInput(f), CrcInput(g), i)
  {
  }

  lemma WindowInPayload(f: seq<byte>, g: seq<byte>, i: nat)
    requires |f| >= HEADER_SIZE && DifferOnlyInWindow(f, g, i) && i >= 16
    ensures f[12..16] == g[12..16] && DifferOnlyInWindow(CrcInput(f), CrcInput(g), i - 4)
  {
  }

  // ----- three windows that can hide a change -----

  lemma Octave(r: word, n: nat, v0: word, v1: word, v2: word, v3: word, v4: word,
               v5: word, v6: word, v7: word, v8: word)
    requires Shifts(r, n) == v0 && Shift(v0) == v1 && Shift(v1) == v2 && Shift(v2) == v3 && Shift(v3) == v4
    requires Shift(v4) == v5 && Shift(v5) == v6 && Shift(v6) == v7 && Shift(v7) == v8
    ensures Shifts(r, n + 8) == v8
  {
    hide Shift;
    assert Shifts(r, n + 1) == v1;
    assert Shifts(r, n + 2) == v2;
    assert Shifts(r, n + 3) == v3;
    assert Shifts(r, n + 4) == v4;
    assert Shifts(r, n + 5) == v5;
    assert Shifts(r, n + 6) == v6;
    assert Shifts(r, n + 7) == v7;
  }

  lemma OneByteShifted()
    ensures Shifts(0x0000_0097, 48) == 0x0063_26FB
  {
    hide Shifts;
    NoShifts(0x0000_0097);
    Octave(0x0000_0097, 0, 0x0000_0097, 0xEDB8_836B, 0x9B64_C295, 0xA00A_E26A, 0x5005_7135,
           0xC5BA_3BBA, 0x62DD_1DDD, 0xDCD6_0DCE, 0x6E6B_06E7);
    Octave(0x0000_0097, 8, 0x6E6B_06E7, 0xDA8D_0053, 0x80FE_0309, 0xADC7_82A4, 0x56E3_C152,
           0x2B71_E0A9, 0xF800_7374, 0x7C00_39BA, 0x3E00_1CDD);
    Octave(0x0000_0097, 16, 0x3E00_1CDD, 0xF2B8_8D4E, 0x795C_46A7, 0xD116_A073, 0x8533_D319,
           0xAF21_6AAC, 0x5790_B556, 0x2BC8_5AAB, 0xF85C_AE75);
    Octave(0x0000_0097, 24, 0xF85C_AE75, 0x9196_D41A, 0x48CB_6A0D, 0xC9DD_3626, 0x64EE_9B13,
           0xDFCF_CEA9, 0x825F_6474, 0x412F_B23A, 0x2097_D91D);
    Octave(0x0000_0097, 32, 0x2097_D91D, 0xFDF3_6FAE, 0x7EF9_B7D7, 0xD2C4_58CB, 0x84DA_AF45,
           0xAFD5_D482, 0x57EA_EA41, 0xC64D_F600, 0x6326_FB00);
    Octave(0x0000_0097, 40, 0x6326_FB00, 0x3193_7D80, 0x18C9_BEC0, 0x0C64_DF60, 0x0632_6FB0,
           0x0319_37D8, 0x018C_9BEC, 0x00C6_4DF6, 0x0063_26FB);
  }

  lemma TwoBytesShifted()
    ensures Shifts(0x0000_D861, 32) == 0x0000_F4EE
  {
    hide Shifts;
    NoShifts(0x0000_D861);
    Octave(0x0000_D861, 0, 0x0000_D861, 0xEDB8_EF10, 0x76DC_7788, 0x3B6E_3BC4, 0x1DB7_1DE2,
           0x0EDB_8EF1, 0xEAD5_4458, 0x756A_A22C, 0x3AB5_5116);
    Octave(0x0000_D861, 8, 0x3AB5_5116, 0x1D5A_A88B, 0xE315_D765, 0x9C32_6892, 0x4E19_3449,
           0xCAB4_1904, 0x655A_0C82, 0x32AD_0641, 0xF4EE_0000);
    Octave(0x0000_D861, 16, 0xF4EE_0000, 0x7A77_0000, 0x3D3B_8000, 0x1E9D_C000, 0x0F4E_E000,
           0x07A7_7000, 0x03D3_B800, 0x01E9_DC00, 0x00F4_EE00);
    Octave(0x0000_D861, 24, 0x00F4_EE00, 0x007A_7700, 0x003D_3B80, 0x001E_9DC0, 0x000F_4EE0,
           0x0007_A770, 0x0003_D3B8, 0x0001_E9DC, 0x0000_F4EE);
  }

  lemma ThreeBytesShifted()
    ensures Shifts(0x0057_13C7, 32) == 0x0000_0005
  {
    hide Shifts;
    NoShifts(0x0057_13C7);
    Octave(0x0057_13C7, 0, 0x0057_13C7, 0xED93_0AC3, 0x9B71_0641, 0xA000_0000, 0x5000_0000,
           0x2800_0000, 0x1400_0000, 0x0A00_0000, 0x0500_0000);
    Octave(0x0057_13C7, 8, 0x0500_0000, 0x0280_0000, 0x0140_0000, 0x00A0_0000, 0x0050_0000,
           0x0028_0000, 0x0014_0000, 0x000A_0000, 0x0005_0000);
    Octave(0x0057_13C7, 16, 0x0005_0000, 0x0002_8000, 0x0001_4000, 0x0000_A000, 0x0000_5000,
           0x0000_2800, 0x0000_1400, 0x0000_0A00, 0x0000_0500);
    Octave(0x0057_13C7, 24, 0x0000_0500, 0x0000_0280, 0x0000_0140, 0x0000_00A0, 0x0000_0050,
           0x0000_0028, 0x0000_0014, 0x0000_000A, 0x0000_0005);
  }

  lemma NoShifts(r: word)
    ensures Shifts(r, 0) == r
  {
  }

  function Zeroes(n: nat): (s: seq<byte>)
    ensures |s| == n && Zeros(s)
  {
    seq(n, i => 0)
  }

  /* DATA packet 1 with a given beginning of its payload, and zeros after it. */
  function Sample(start: seq<byte>, zeros: nat): Packet {
    Packet(DATA, 1, start + Zeroes(zeros))
  }

  /* The checksums of two such packets differ by the shifted difference of their beginnings. */
  lemma SampleChecksums(start: seq<byte>, zeros: nat)
    requires |start| + zeros <= MAX_PAYLOAD
    ensures var (p, q) := (Sample(Zeroes(|start|), zeros), Sample(start, zeros));
      Checksum(q) == Xor(Checksum(p), Shifts(Register(0, start), 8 * zeros))
  {
    hide Crc32, Register, Shifts, SplitWord, SplitHalf, ToWord;
    var p, q := Sample(Zeroes(|start|), zeros), Sample(start, zeros);
    SamePrefix(p, q);
    DifferenceInStart(Prefix(p), start, zeros);
    CrcDifference(Prefix(p) + q.payload, Prefix(p) + p.payload);
    RegisterAround(Zeroes(12), start, Zeroes(zeros));
    Rearrange(Checksum(q), Checksum(p), Shifts(Register(0, start), 8 * zeros));
  }

  lemma SamePrefix(p: Packet, q: Packet)
    requires Encodable(p) && Encodable(q)
    requires p.kind == q.kind && p.sequence == q.sequence && |p.payload| == |q.payload|
    ensures Prefix(p) == Prefix(q)
  {
  }

  lemma DifferenceInStart(prefix: seq<byte>, start: seq<byte>, zeros: nat)
    requires |prefix| == 12
    ensures Difference(prefix + (start + Zeroes(zeros)), prefix + (Zeroes(|start|) + Zeroes(zeros))) ==
            Zeroes(12) + start + Zeroes(zeros)
  {
    var a, b := prefix + (start + Zeroes(zeros)), prefix + (Zeroes(|start|) + Zeroes(zeros));
    forall k | 0 <= k < |a|
      ensures Difference(a, b)[k] == (Zeroes(12) + start + Zeroes(zeros))[k]
    {
      SumWithItself(a[k]);
    }
  }

  lemma SumWithItself(b: byte)
    ensures b ^ b == 0 && b ^ 0 == b
  {
  }

  predicate ZeroFrom(s: seq<byte>, m: nat) {
    forall k :: m <= k < |s| ==> s[k] == 0
  }

  /* If the checksums of two samples agree in their first m bytes, and the samples differ only in theirs, the frames
     differ only in the four bytes between. */
  lemma SampleWindow(start: seq<byte>, zeros: nat, m: nat, delta: word)
    requires |start| == 4 && 1 <= m <= 3 && zeros <= 8 && ZeroFrom(start, m) && !Zeros(start)
    requires Shifts(Register(0, start), 8 * zeros) == delta && Zeros(SplitWord(delta)[..m])
    ensures var (p, q) := (Sample(Zeroes(4), zeros), Sample(start, zeros));
      Encodable(p) && Encodable(q) && Frame(p) != Frame(q) && DifferOnlyInWindow(Frame(p), Frame(q), 12 + m)
  {
    hide SplitWord, SplitHalf, ToWord, Checksum, Prefix, Xor;
    var p, q := Sample(Zeroes(4), zeros), Sample(start, zeros);
    SampleChecksums(start, zeros);
    SamePrefix(p, q);
    assert Frame(p) == Prefix(p) + SplitWord(Checksum(p)) + p.payload;
    assert Frame(q) == Prefix(p) + SplitWord(Checksum(q)) + q.payload;
    SumKeepsBytes(Checksum(p), delta, m);
    ThreePieces(Prefix(p), SplitWord(Checksum(p)), p.payload, SplitWord(Checksum(q)), q.payload, m);
    assert p.payload != q.payload by {
      assert p.payload[..4] == Zeroes(4) && q.payload[..4] == start;
    }
  }

  lemma ThreePieces(a: seq<byte>, b: seq<byte>, c: seq<byte>, b': seq<byte>, c': seq<byte>, m: nat)
    requires |a| == 12 && |b| == |b'| == 4 && |c| == |c'| && m <= 4
    requires b[..m] == b'[..m] && forall k :: m <= k < |c| ==> c[k] == c'[k]
    ensures DifferOnlyInWindow(a + b + c, a + b' + c', 12 + m)
    ensures c != c' ==> a + b + c != a + b' + c'
  {
    var f, g := a + b + c, a + b' + c';
    forall k | 0 <= k < |f| && !(12 + m <= k < 16 + m)
      ensures f[k] == g[k]
    {
      if 12 <= k < 12 + m {
        assert f[k] == b[..m][k - 12] && g[k] == b'[..m][k - 12];
      }
    }
    assert f[16..] == c && g[16..] == c';
  }

  lemma SumKeepsBytes(w: word, delta: word, m: nat)
    requires m <= 3 && Zeros(SplitWord(delta)[..m])
    ensures SplitWord(Xor(w, delta))[..m] == SplitWord(w)[..m]
  {
    hide Xor;
    var s := SplitWord(delta)[..m];
    if m > 0 {
      assert s[0] == SplitWord(delta)[0];
      FirstByteKept(w, delta);
    }
    if m > 1 {
      assert s[1] == SplitWord(delta)[1];
      SecondByteKept(w, delta);
    }
    if m > 2 {
      assert s[2] == SplitWord(delta)[2];
      ThirdByteKept(w, delta);
    }
  }

  lemma FirstByteKept(w: word, delta: word)
    requires (delta >> 24) as byte == 0
    ensures (Xor(w, delta) >> 24) as byte == (w >> 24) as byte
  {
  }

  lemma SecondByteKept(w: word, delta: word)
    requires ((delta >> 16) & 0xFF) as byte == 0
    ensures ((Xor(w, delta) >> 16) & 0xFF) as byte == ((w >> 16) & 0xFF) as byte
  {
  }

  lemma ThirdByteKept(w: word, delta: word)
    requires ((delta >> 8) & 0xFF) as byte == 0
    ensures ((Xor(w, delta) >> 8) & 0xFF) as byte == ((w >> 8) & 0xFF) as byte
  {
  }

  lemma FourBytes(a: byte, b: byte, c: byte, d: byte, joined: word)
    requires Join(d, c, b, a) == joined
    ensures Register(0, [a, b, c, d]) == Shifts(joined, 32)
  {
    hide Shifts, Join;
    AbsorbFour(0, [a, b, c, d]);
    XorIdentities(joined);
  }

  /* For each of the three windows, two frames that differ nowhere else. */
  lemma WindowHides(i: nat) returns (p: Packet, q: Packet)
    requires 13 <= i <= 15
    ensures Encodable(p) && Encodable(q) && Frame(p) != Frame(q) && DifferOnlyInWindow(Frame(p), Frame(q), i)
  {
    hide Shifts, Register, Frame, DifferOnlyInWindow;
    p := Sample(Zeroes(4), if i == 13 then 2 else 0);
    match i {
      case 13 =>
        var start := [0x97, 0, 0, 0];
        assert start[0] != 0;
        FourBytes(0x97, 0, 0, 0, 0x97);
        ShiftsAdd(0x97, 32, 16);
        OneByteShifted();
        SampleWindow(start, 2, 1, 0x0063_26FB);
        q := Sample(start, 2);
      case 14 =>
        var start := [0x61, 0xD8, 0, 0];
        assert start[0] != 0;
        FourBytes(0x61, 0xD8, 0, 0, 0xD861);
        TwoBytesShifted();
        NoShifts(0x0000_F4EE);
        SampleWindow(start, 0, 2, 0x0000_F4EE);
        q := Sample(start, 0);
      case 15 =>
        var start := [0xC7, 0x13, 0x57, 0];
        assert start[0] != 0;
        FourBytes(0xC7, 0x13, 0x57, 0, 0x0057_13C7);
        ThreeBytesShifted();
        NoShifts(0x0000_0005);
        SampleWindow(start, 0, 3, 0x0000_0005);
        q := Sample(start, 0);
    }
  }

  lemma Caught(p: Packet, g: seq<byte>, i: nat)
    requires Encodable(p) && g != Frame(p) && DifferOnlyInWindow(Frame(p), g, i) && !(13 <= i <= 15)
    ensures |g| >= HEADER_SIZE && Decode(g[..16], g[16..]).Err?
  {
    hide Frame, Decode, DifferOnlyInWindow;
    SameLength(Frame(p), g, i);
    if Decode(g[..16], g[16..]).Ok? {
      FrameOfDecode(g[..16], g[16..]);
      assert g[..16] + g[16..] == g;
      FramesApart(p, Decode(g[..16], g[16..]).value, i);
    }
  }

  /* The four-byte windows in which every change of a frame is caught are those that do not cross the end of the
     checksum field. */
  lemma AlwaysCaughtExactly(i: nat)
    ensures AlwaysCaught(i) <==> !(13 <= i <= 15)
  {
    hide Frame, Decode;
    if 13 <= i <= 15 {
      var p, q := WindowHides(i);
      DecodeOfFrame(q);
    } else {
      forall p: Packet, g: seq<byte> | Encodable(p) && g != Frame(p) && DifferOnlyInWindow(Frame(p), g, i)
        ensures Decode(g[..16], g[16..]).Err?
      {
        Caught(p, g, i);
      }
    }
  }
}
