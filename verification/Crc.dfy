/**
 The frame checksum: the bitwise reflected CRC-32, its table-driven form from
 section 8 of RFC 1952, and the algebra of its register step.
 */
module Crc {
  import opened Words

  const INITIAL: word := 0xFFFF_FFFF

  function Xor(a: word, b: word): word {
    a ^ b
  }

  function Widen(b: byte): word {
    b as word
  }

  /* One bit of the register loop. */
  function Shift(r: word): word {
    if r & 1 == 1 then (r >> 1) ^ 0xEDB8_8320 else r >> 1
  }

  function Shifts(r: word, n: nat): word
    decreases n
  {
    if n == 0 then r else Shift(Shifts(r, n - 1))
  }

  function Absorb(r: word, b: byte): word {
    Shifts(Xor(r, Widen(b)), 8)
  }

  /* The register after absorbing data, starting from r. */
  function Register(r: word, data: seq<byte>): word
    decreases |data|
  {
    if data == [] then r else Absorb(Register(r, data[..|data| - 1]), data[|data| - 1])
  }

  function Crc32(data: seq<byte>): word {
    Xor(Register(INITIAL, data), INITIAL)
  }

  method ComputeCrc32(data: seq<byte>) returns (crc: word)
    ensures crc == Crc32(data)
  {
    crc := INITIAL;
    for i := 0 to |data|
      invariant crc == Register(INITIAL, data[..i])
    {
      assert data[..i + 1][..i] == data[..i];
      ghost var start := Xor(crc, Widen(data[i]));
      crc := Xor(crc, Widen(data[i]));
      for bit := 0 to 8
        invariant crc == Shifts(start, bit)
      {
        OddOrEven(crc);
        if crc & 1 != 0 {
          crc := Xor(crc >> 1, 0xEDB8_8320);
        } else {
          crc := crc >> 1;
        }
      }
    }
    assert data[..|data|] == data;
    crc := Xor(crc, INITIAL);
  }

  // ----- the register step is linear -----

  lemma LowBit(a: word)
    ensures a & 1 == 0 || a & 1 == 1
  {
  }

  lemma OddOrEven(r: word)
    ensures r & 1 != 0 ==> Shift(r) == Xor(r >> 1, 0xEDB8_8320)
    ensures r & 1 == 0 ==> Shift(r) == r >> 1
  {
  }

  lemma HalvesOfXor(a: word, b: word)
    ensures (a ^ b) >> 1 == (a >> 1) ^ (b >> 1)
    ensures (a ^ b) & 1 == (a & 1) ^ (b & 1)
  {
  }

  lemma XorShuffle(a: word, b: word, p: word)
    ensures (a ^ p) ^ (b ^ p) == a ^ b
    ensures (a ^ p) ^ b == (a ^ b) ^ p
    ensures a ^ (b ^ p) == (a ^ b) ^ p
  {
  }

  lemma ShiftOfXor(a: word, b: word)
    ensures Shift(Xor(a, b)) == Xor(Shift(a), Shift(b))
  {
    HalvesOfXor(a, b);
    LowBit(a);
    LowBit(b);
    XorShuffle(a >> 1, b >> 1, 0xEDB8_8320);
  }

  lemma {:induction false} ShiftsOfXor(a: word, b: word, n: nat)
    ensures Shifts(Xor(a, b), n) == Xor(Shifts(a, n), Shifts(b, n))
    decreases n
  {
    if n > 0 {
      ShiftsOfXor(a, b, n - 1);
      ShiftOfXor(Shifts(a, n - 1), Shifts(b, n - 1));
    }
  }

  lemma {:induction false} ShiftsAdd(r: word, m: nat, n: nat)
    ensures Shifts(r, m + n) == Shifts(Shifts(r, m), n)
    decreases n
  {
    if n > 0 {
      ShiftsAdd(r, m, n - 1);
    }
  }

  /* Where two byte strings of the same length differ. */
  function Difference(a: seq<byte>, b: seq<byte>): (d: seq<byte>)
    requires |a| == |b|
    ensures |d| == |a|
  {
    seq(|a|, i requires 0 <= i < |a| => a[i] ^ b[i])
  }

  lemma XorSwap(r: word, s: word, a: byte, b: byte)
    ensures Xor(Xor(r, s), Widen(a ^ b)) == Xor(Xor(r, Widen(a)), Xor(s, Widen(b)))
  {
  }

  lemma AbsorbOfXor(r: word, s: word, a: byte, b: byte)
    ensures Absorb(Xor(r, s), a ^ b) == Xor(Absorb(r, a), Absorb(s, b))
  {
    XorSwap(r, s, a, b);
    ShiftsOfXor(Xor(r, Widen(a)), Xor(s, Widen(b)), 8);
  }

  /* The register is additive in its start value and its input together. */
  lemma {:induction false} RegisterOfXor(r: word, s: word, a: seq<byte>, b: seq<byte>)
    requires |a| == |b|
    ensures Register(Xor(r, s), Difference(a, b)) == Xor(Register(r, a), Register(s, b))
    decreases |a|
  {
    hide Absorb, Xor;
    if a != [] {
      var n := |a| - 1;
      assert Difference(a, b)[..n] == Difference(a[..n], b[..n]);
      RegisterOfXor(r, s, a[..n], b[..n]);
      AbsorbOfXor(Register(r, a[..n]), Register(s, b[..n]), a[n], b[n]);
    }
  }

  lemma {:induction false} RegisterConcat(r: word, a: seq<byte>, b: seq<byte>)
    ensures Register(r, a + b) == Register(Register(r, a), b)
    decreases |b|
  {
    if b == [] {
      assert a + b == a;
    } else {
      var n := |b| - 1;
      RegisterConcat(r, a, b[..n]);
      assert (a + b)[..|a + b| - 1] == a + b[..n];
    }
  }

  lemma XorCancel(a: word, b: word, c: word)
    ensures Xor(Xor(a, c), Xor(b, c)) == Xor(a, b)
  {
    XorAssociative(a, c, Xor(b, c));
    XorCommutative(b, c);
    XorAssociative(c, c, b);
    XorIdentities(c);
    XorIdentities(b);
  }

  lemma XorAssociative(a: word, b: word, c: word)
    ensures Xor(Xor(a, b), c) == Xor(a, Xor(b, c))
  {
  }

  lemma XorCommutative(a: word, b: word)
    ensures Xor(a, b) == Xor(b, a)
  {
  }

  lemma XorIdentities(a: word)
    ensures Xor(a, a) == 0
    ensures Xor(0, a) == a
    ensures Xor(a, 0) == a
  {
  }

  lemma EqualWhenCancelling(a: word, b: word)
    requires Xor(a, b) == 0
    ensures a == b
  {
  }

  /* The checksums of two strings of the same length differ by the register's image of their difference. */
  lemma CrcDifference(a: seq<byte>, b: seq<byte>)
    requires |a| == |b|
    ensures Xor(Crc32(a), Crc32(b)) == Register(0, Difference(a, b))
  {
    XorIdentities(INITIAL);
    RegisterOfXor(INITIAL, INITIAL, a, b);
    XorCancel(Register(INITIAL, a), Register(INITIAL, b), INITIAL);
  }

  /* The CRC is affine: the checksum of a sum of three strings is the sum of their checksums. */
  lemma CrcAffine(a: seq<byte>, b: seq<byte>, c: seq<byte>)
    requires |a| == |b| == |c|
    ensures Crc32(Difference(Difference(a, b), c)) == Xor(Xor(Crc32(a), Crc32(b)), Crc32(c))
  {
    XorIdentities(INITIAL);
    RegisterOfXor(INITIAL, INITIAL, a, b);
    RegisterOfXor(0, INITIAL, Difference(a, b), c);
    XorCancel(Register(INITIAL, a), Register(INITIAL, b), INITIAL);
    XorAssociative(Xor(Register(INITIAL, a), Register(INITIAL, b)), Register(INITIAL, c), INITIAL);
  }

  // ----- the register step is a bijection -----

  function Unshift(r: word): word {
    if r & 0x8000_0000 == 0 then r << 1 else ((r ^ 0xEDB8_8320) << 1) | 1
  }

  function Unshifts(r: word, n: nat): word
    decreases n
  {
    if n == 0 then r else Unshifts(Unshift(r), n - 1)
  }

  lemma UnshiftOfShift(r: word)
    ensures Unshift(Shift(r)) == r
  {
  }

  lemma ShiftOfUnshift(r: word)
    ensures Shift(Unshift(r)) == r
  {
    hide Shift;
    OddOrEven(Unshift(r));
    if r & 0x8000_0000 == 0 {
      LowRoundTrip(r);
    } else {
      HighRoundTrip(r);
    }
  }

  lemma LowRoundTrip(r: word)
    requires r & 0x8000_0000 == 0
    ensures (r << 1) & 1 == 0 && (r << 1) >> 1 == r
  {
  }

  lemma HighRoundTrip(r: word)
    requires r & 0x8000_0000 != 0
    ensures (((r ^ 0xEDB8_8320) << 1) | 1) & 1 == 1
    ensures ((((r ^ 0xEDB8_8320) << 1) | 1) >> 1) ^ 0xEDB8_8320 == r
  {
  }

  lemma {:induction false} ShiftsInjective(a: word, b: word, n: nat)
    requires Shifts(a, n) == Shifts(b, n)
    ensures a == b
    decreases n
  {
    if n > 0 {
      UnshiftOfShift(Shifts(a, n - 1));
      UnshiftOfShift(Shifts(b, n - 1));
      ShiftsInjective(a, b, n - 1);
    }
  }

  lemma {:induction false} ShiftsOfUnshifts(r: word, n: nat)
    ensures Shifts(Unshifts(r, n), n) == r
    decreases n
  {
    if n > 0 {
      ShiftsOfUnshifts(Unshift(r), n - 1);
      ShiftOfUnshift(r);
    }
  }

  // ----- the table-driven form -----

  /* One round of the inner loop of make_crc_table in section 8 of RFC 1952. */
  function TableRound(c: word): word {
    if c & 1 != 0 then 0xEDB8_8320 ^ (c >> 1) else c >> 1
  }

  function TableRounds(c: word, k: nat): word
    decreases k
  {
    if k == 0 then c else TableRound(TableRounds(c, k - 1))
  }

  /* Entry n of that table. */
  function TableEntry(n: byte): word {
    TableRounds(Widen(n), 8)
  }

  lemma RoundIsShift(c: word)
    ensures TableRound(c) == Shift(c)
  {
  }

  lemma {:induction false} RoundsAreShifts(c: word, k: nat)
    ensures TableRounds(c, k) == Shifts(c, k)
    decreases k
  {
    hide Shift, TableRound;
    if k > 0 {
      RoundsAreShifts(c, k - 1);
      RoundIsShift(Shifts(c, k - 1));
    }
  }

  function LowByte(r: word): byte {
    (r & 0xFF) as byte
  }

  function TableAbsorb(r: word, b: byte): word {
    Xor(TableEntry(LowByte(Xor(r, Widen(b)))), r >> 8)
  }

  function TableRegister(r: word, data: seq<byte>): word
    decreases |data|
  {
    if data == [] then r else TableAbsorb(TableRegister(r, data[..|data| - 1]), data[|data| - 1])
  }

  function HighBits(r: word): word {
    r & 0xFFFF_FF00
  }

  lemma SplitLowByte(r: word, b: byte)
    ensures Xor(r, Widen(b)) == Xor(Widen(LowByte(Xor(r, Widen(b)))), HighBits(r))
  {
  }

  lemma ShiftsOfHigh(r: word)
    ensures Shifts(HighBits(r), 8) == r >> 8
  {
  }

  lemma TableStep(r: word, b: byte)
    ensures TableAbsorb(r, b) == Absorb(r, b)
  {
    SplitLowByte(r, b);
    RoundsAreShifts(Widen(LowByte(Xor(r, Widen(b)))), 8);
    ShiftsOfXor(Widen(LowByte(Xor(r, Widen(b)))), HighBits(r), 8);
    ShiftsOfHigh(r);
  }

  /* The bitwise loop computes the table-driven checksum, on every string. */
  lemma {:induction false} TableForm(r: word, data: seq<byte>)
    ensures TableRegister(r, data) == Register(r, data)
    decreases |data|
  {
    if data != [] {
      TableForm(r, data[..|data| - 1]);
      TableStep(Register(r, data[..|data| - 1]), data[|data| - 1]);
    }
  }

  /* The checksum is that of section 8 of RFC 1952: crc() there starts update_crc from 0, which complements its
     argument, runs the table over the data, and complements the result. */
  lemma Rfc1952(data: seq<byte>)
    ensures Crc32(data) == Xor(TableRegister(Xor(0, 0xFFFF_FFFF), data), 0xFFFF_FFFF)
  {
    XorIdentities(0xFFFF_FFFF);
    TableForm(INITIAL, data);
  }
}
