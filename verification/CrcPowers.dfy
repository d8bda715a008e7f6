/**
 The powers of x modulo the CRC polynomial, which are what one flipped bit
 does to the checksum, and squaring, which doubles an exponent.
 */
module CrcPowers {
  import opened Words
  import opened Crc

  const ONE: word := 0x8000_0000

  /* x^k modulo the polynomial; the coefficient of x^0 is the most significant bit. */
  function Power(k: nat): word {
    Shifts(ONE, k)
  }

  lemma PowerAdd(j: nat, k: nat)
    ensures Power(j + k) == Shifts(Power(j), k)
  {
    ShiftsAdd(ONE, j, k);
  }

  // ----- squaring, which doubles an exponent -----

  predicate OneBit(mask: word) {
    mask & (mask - 1) == 0
  }

  function Pick(v: word, mask: word, c: word): word {
    if v & mask == 0 then 0 else c
  }

  /* The sum of c, x^2 c, x^4 c, ... over the bits of v selected by mask, mask >> 1, ... */
  function Spread(v: word, mask: word, c: word): word
    decreases mask
  {
    if mask == 0 then 0 else Xor(Pick(v, mask, c), Spread(v, mask >> 1, Shift(Shift(c))))
  }

  /* The square of the polynomial v. */
  function Square(v: word): word {
    Spread(v, ONE, ONE)
  }

  lemma HalfMask(mask: word)
    requires OneBit(mask)
    ensures OneBit(mask >> 1)
  {
  }

  lemma BitOfXor(a: word, b: word, mask: word)
    requires OneBit(mask)
    ensures a & mask == 0 || a & mask == mask
    ensures b & mask == 0 || b & mask == mask
    ensures Xor(a, b) & mask == 0 <==> a & mask == b & mask
  {
    assert (a ^ b) & mask == (a & mask) ^ (b & mask);
  }

  lemma PickOfXor(a: word, b: word, mask: word, c: word)
    requires OneBit(mask)
    ensures Pick(Xor(a, b), mask, c) == Xor(Pick(a, mask, c), Pick(b, mask, c))
  {
    hide Xor, OneBit;
    BitOfXor(a, b, mask);
    XorIdentities(c);
    XorIdentities(0);
  }

  lemma XorExchange(a: word, b: word, c: word, d: word)
    ensures Xor(Xor(a, b), Xor(c, d)) == Xor(Xor(a, c), Xor(b, d))
  {
    XorAssociative(a, b, Xor(c, d));
    XorAssociative(b, c, d);
    XorCommutative(b, c);
    XorAssociative(c, b, d);
    XorAssociative(a, c, Xor(b, d));
  }

  lemma {:induction false} SpreadOfXor(a: word, b: word, mask: word, c: word)
    requires OneBit(mask)
    ensures Spread(Xor(a, b), mask, c) == Xor(Spread(a, mask, c), Spread(b, mask, c))
    decreases mask
  {
    if mask == 0 {
      XorIdentities(0);
    } else {
      var next := Shift(Shift(c));
      HalfMask(mask);
      PickOfXor(a, b, mask, c);
      SpreadOfXor(a, b, mask >> 1, next);
      XorExchange(Pick(a, mask, c), Pick(b, mask, c), Spread(a, mask >> 1, next), Spread(b, mask >> 1, next));
    }
  }

  lemma ShiftOfPick(v: word, mask: word, c: word)
    ensures Shift(Pick(v, mask, c)) == Pick(v, mask, Shift(c))
  {
  }

  lemma {:induction false} ShiftOfSpread(v: word, mask: word, c: word)
    ensures Shift(Spread(v, mask, c)) == Spread(v, mask, Shift(c))
    decreases mask
  {
    if mask != 0 {
      var next := Shift(Shift(c));
      ShiftOfXor(Pick(v, mask, c), Spread(v, mask >> 1, next));
      ShiftOfPick(v, mask, c);
      ShiftOfSpread(v, mask >> 1, next);
    }
  }

  lemma PickOfHalf(v: word, mask: word, c: word)
    requires v & 1 == 0 && OneBit(mask) && mask != 0
    ensures mask == 1 ==> Pick(v, mask, c) == 0
    ensures mask != 1 ==> Pick(v >> 1, mask >> 1, c) == Pick(v, mask, c)
  {
  }

  lemma {:induction false} SpreadOfHalf(v: word, mask: word, c: word)
    requires v & 1 == 0 && OneBit(mask)
    ensures Spread(v >> 1, mask >> 1, c) == Spread(v, mask, c)
    decreases mask
  {
    hide Shift, Xor, Pick;
    if mask != 0 {
      PickOfHalf(v, mask, c);
      if mask == 1 {
        XorIdentities(0);
      } else {
        HalfMask(mask);
        SpreadOfHalf(v, mask >> 1, Shift(Shift(c)));
      }
    }
  }

  lemma SquareOfEvenShift(v: word)
    requires v & 1 == 0
    ensures Square(Shift(v)) == Shift(Shift(Square(v)))
  {
    assert Pick(v >> 1, ONE, ONE) == 0;
    SpreadOfHalf(v, ONE, Shift(Shift(ONE)));
    XorIdentities(Spread(v >> 1, ONE >> 1, Shift(Shift(ONE))));
    ShiftOfSpread(v, ONE, ONE);
    ShiftOfSpread(v, ONE, Shift(ONE));
  }

  lemma OddPart(v: word)
    requires v & 1 == 1
    ensures v == Xor(v ^ 1, 1) && (v ^ 1) & 1 == 0
  {
  }

  /* Squaring turns one multiplication by x into two. */
  lemma SquareOfShift(v: word)
    ensures Square(Shift(v)) == Shift(Shift(Square(v)))
  {
    LowBit(v);
    if v & 1 == 0 {
      SquareOfEvenShift(v);
    } else {
      var u := v ^ 1;
      OddPart(v);
      SquareOfEvenShift(u);
      SquareOfOne();
      ShiftOfXor(u, 1);
      SpreadOfXor(Shift(u), Shift(1), ONE, ONE);
      SpreadOfXor(u, 1, ONE, ONE);
      ShiftOfXor(Square(u), Square(1));
      ShiftOfXor(Shift(Square(u)), Shift(Square(1)));
    }
  }

  lemma {:induction false} PowerDouble(k: nat)
    ensures Power(2 * k) == Square(Power(k))
    decreases k
  {
    if k == 0 {
      SquareOfOne();
    } else {
      PowerDouble(k - 1);
      SquareOfShift(Power(k - 1));
      assert Power(2 * k - 1) == Shift(Power(2 * (k - 1)));
    }
  }

  // ----- squares by bytes -----

  lemma SpreadStep(v: word, mask: word, c: word, mask': word, c': word)
    requires mask != 0 && mask' == mask >> 1 && c' == Shift(Shift(c))
    ensures Spread(v, mask, c) == Xor(Pick(v, mask, c), Spread(v, mask', c'))
  {
  }

  function Sum(a: word, b: word, c: word, d: word): word {
    Xor(Xor(a, b), Xor(c, d))
  }

  lemma SumChain(a: word, b: word, c: word, d: word, rest: word)
    ensures Xor(a, Xor(b, Xor(c, Xor(d, rest)))) == Xor(Sum(a, b, c, d), rest)
  {
    hide Xor;
    XorAssociative(a, b, Xor(c, Xor(d, rest)));
    XorAssociative(c, d, rest);
    XorAssociative(Xor(a, b), Xor(c, d), rest);
  }

  function Byte0(v: word): word {
    Xor(
      Sum(if v & 0x8000_0000 == 0 then 0 else 0x8000_0000, if v & 0x4000_0000 == 0 then 0 else 0x2000_0000,
          if v & 0x2000_0000 == 0 then 0 else 0x0800_0000, if v & 0x1000_0000 == 0 then 0 else 0x0200_0000),
      Sum(if v & 0x0800_0000 == 0 then 0 else 0x0080_0000, if v & 0x0400_0000 == 0 then 0 else 0x0020_0000,
          if v & 0x0200_0000 == 0 then 0 else 0x0008_0000, if v & 0x0100_0000 == 0 then 0 else 0x0002_0000))
  }

  lemma SpreadByte0(v: word)
    ensures Spread(v, 0x8000_0000, 0x8000_0000) == Xor(Byte0(v), Spread(v, 0x0080_0000, 0x0000_8000))
  {
    hide Spread, Sum, Xor;
    SpreadStep(v, 0x8000_0000, 0x8000_0000, 0x4000_0000, 0x2000_0000);
    SpreadStep(v, 0x4000_0000, 0x2000_0000, 0x2000_0000, 0x0800_0000);
    SpreadStep(v, 0x2000_0000, 0x0800_0000, 0x1000_0000, 0x0200_0000);
    SpreadStep(v, 0x1000_0000, 0x0200_0000, 0x0800_0000, 0x0080_0000);
    SpreadStep(v, 0x0800_0000, 0x0080_0000, 0x0400_0000, 0x0020_0000);
    SpreadStep(v, 0x0400_0000, 0x0020_0000, 0x0200_0000, 0x0008_0000);
    SpreadStep(v, 0x0200_0000, 0x0008_0000, 0x0100_0000, 0x0002_0000);
    SpreadStep(v, 0x0100_0000, 0x0002_0000, 0x0080_0000, 0x0000_8000);
    SumChain(Pick(v, 0x8000_0000, 0x8000_0000), Pick(v, 0x4000_0000, 0x2000_0000),
             Pick(v, 0x2000_0000, 0x0800_0000), Pick(v, 0x1000_0000, 0x0200_0000),
             Spread(v, 0x0800_0000, 0x0080_0000));
    SumChain(Pick(v, 0x0800_0000, 0x0080_0000), Pick(v, 0x0400_0000, 0x0020_0000),
             Pick(v, 0x0200_0000, 0x0008_0000), Pick(v, 0x0100_0000, 0x0002_0000),
             Spread(v, 0x0080_0000, 0x0000_8000));
    XorAssociative(Sum(Pick(v, 0x8000_0000, 0x8000_0000), Pick(v, 0x4000_0000, 0x2000_0000),
                       Pick(v, 0x2000_0000, 0x0800_0000), Pick(v, 0x1000_0000, 0x0200_0000)),
                   Sum(Pick(v, 0x0800_0000, 0x0080_0000), Pick(v, 0x0400_0000, 0x0020_0000),
                       Pick(v, 0x0200_0000, 0x0008_0000), Pick(v, 0x0100_0000, 0x0002_0000)),
                   Spread(v, 0x0080_0000, 0x0000_8000));
  }

  function Byte1(v: word): word {
    Xor(
      Sum(if v & 0x0080_0000 == 0 then 0 else 0x0000_8000, if v & 0x0040_0000 == 0 then 0 else 0x0000_2000,
          if v & 0x0020_0000 == 0 then 0 else 0x0000_0800, if v & 0x0010_0000 == 0 then 0 else 0x0000_0200),
      Sum(if v & 0x0008_0000 == 0 then 0 else 0x0000_0080, if v & 0x0004_0000 == 0 then 0 else 0x0000_0020,
          if v & 0x0002_0000 == 0 then 0 else 0x0000_0008, if v & 0x0001_0000 == 0 then 0 else 0x0000_0002))
  }

  lemma SpreadByte1(v: word)
    ensures Spread(v, 0x0080_0000, 0x0000_8000) == Xor(Byte1(v), Spread(v, 0x0000_8000, 0xEDB8_8320))
  {
    hide Spread, Sum, Xor;
    SpreadStep(v, 0x0080_0000, 0x0000_8000, 0x0040_0000, 0x0000_2000);
    SpreadStep(v, 0x0040_0000, 0x0000_2000, 0x0020_0000, 0x0000_0800);
    SpreadStep(v, 0x0020_0000, 0x0000_0800, 0x0010_0000, 0x0000_0200);
    SpreadStep(v, 0x0010_0000, 0x0000_0200, 0x0008_0000, 0x0000_0080);
    SpreadStep(v, 0x0008_0000, 0x0000_0080, 0x0004_0000, 0x0000_0020);
    SpreadStep(v, 0x0004_0000, 0x0000_0020, 0x0002_0000, 0x0000_0008);
    SpreadStep(v, 0x0002_0000, 0x0000_0008, 0x0001_0000, 0x0000_0002);
    SpreadStep(v, 0x0001_0000, 0x0000_0002, 0x0000_8000, 0xEDB8_8320);
    SumChain(Pick(v, 0x0080_0000, 0x0000_8000), Pick(v, 0x0040_0000, 0x0000_2000),
             Pick(v, 0x0020_0000, 0x0000_0800), Pick(v, 0x0010_0000, 0x0000_0200),
             Spread(v, 0x0008_0000, 0x0000_0080));
    SumChain(Pick(v, 0x0008_0000, 0x0000_0080), Pick(v, 0x0004_0000, 0x0000_0020),
             Pick(v, 0x0002_0000, 0x0000_0008), Pick(v, 0x0001_0000, 0x0000_0002),
             Spread(v, 0x0000_8000, 0xEDB8_8320));
    XorAssociative(Sum(Pick(v, 0x0080_0000, 0x0000_8000), Pick(v, 0x0040_0000, 0x0000_2000),
                       Pick(v, 0x0020_0000, 0x0000_0800), Pick(v, 0x0010_0000, 0x0000_0200)),
                   Sum(Pick(v, 0x0008_0000, 0x0000_0080), Pick(v, 0x0004_0000, 0x0000_0020),
                       Pick(v, 0x0002_0000, 0x0000_0008), Pick(v, 0x0001_0000, 0x0000_0002)),
                   Spread(v, 0x0000_8000, 0xEDB8_8320));
  }

  function Byte2(v: word): word {
    Xor(
      Sum(if v & 0x0000_8000 == 0 then 0 else 0xEDB8_8320, if v & 0x0000_4000 == 0 then 0 else 0x3B6E_20C8,
          if v & 0x0000_2000 == 0 then 0 else 0x0EDB_8832, if v & 0x0000_1000 == 0 then 0 else 0xEE0E_612C),
      Sum(if v & 0x0000_0800 == 0 then 0 else 0x3B83_984B, if v & 0x0000_0400 == 0 then 0 else 0x9584_24A2,
          if v & 0x0000_0200 == 0 then 0 else 0xC8D9_8A08, if v & 0x0000_0100 == 0 then 0 else 0x3236_6282))
  }

  lemma SpreadByte2(v: word)
    ensures Spread(v, 0x0000_8000, 0xEDB8_8320) == Xor(Byte2(v), Spread(v, 0x0000_0080, 0xE135_1B80))
  {
    hide Spread, Sum, Xor;
    SpreadStep(v, 0x0000_8000, 0xEDB8_8320, 0x0000_4000, 0x3B6E_20C8);
    SpreadStep(v, 0x0000_4000, 0x3B6E_20C8, 0x0000_2000, 0x0EDB_8832);
    SpreadStep(v, 0x0000_2000, 0x0EDB_8832, 0x0000_1000, 0xEE0E_612C);
    SpreadStep(v, 0x0000_1000, 0xEE0E_612C, 0x0000_0800, 0x3B83_984B);
    SpreadStep(v, 0x0000_0800, 0x3B83_984B, 0x0000_0400, 0x9584_24A2);
    SpreadStep(v, 0x0000_0400, 0x9584_24A2, 0x0000_0200, 0xC8D9_8A08);
    SpreadStep(v, 0x0000_0200, 0xC8D9_8A08, 0x0000_0100, 0x3236_6282);
    SpreadStep(v, 0x0000_0100, 0x3236_6282, 0x0000_0080, 0xE135_1B80);
    SumChain(Pick(v, 0x0000_8000, 0xEDB8_8320), Pick(v, 0x0000_4000, 0x3B6E_20C8),
             Pick(v, 0x0000_2000, 0x0EDB_8832), Pick(v, 0x0000_1000, 0xEE0E_612C),
             Spread(v, 0x0000_0800, 0x3B83_984B));
    SumChain(Pick(v, 0x0000_0800, 0x3B83_984B), Pick(v, 0x0000_0400, 0x9584_24A2),
             Pick(v, 0x0000_0200, 0xC8D9_8A08), Pick(v, 0x0000_0100, 0x3236_6282),
             Spread(v, 0x0000_0080, 0xE135_1B80));
    XorAssociative(Sum(Pick(v, 0x0000_8000, 0xEDB8_8320), Pick(v, 0x0000_4000, 0x3B6E_20C8),
                       Pick(v, 0x0000_2000, 0x0EDB_8832), Pick(v, 0x0000_1000, 0xEE0E_612C)),
                   Sum(Pick(v, 0x0000_0800, 0x3B83_984B), Pick(v, 0x0000_0400, 0x9584_24A2),
                       Pick(v, 0x0000_0200, 0xC8D9_8A08), Pick(v, 0x0000_0100, 0x3236_6282)),
                   Spread(v, 0x0000_0080, 0xE135_1B80));
  }

  function Byte3(v: word): word {
    Xor(
      Sum(if v & 0x0000_0080 == 0 then 0 else 0xE135_1B80, if v & 0x0000_0040 == 0 then 0 else 0x384D_46E0,
          if v & 0x0000_0020 == 0 then 0 else 0x0E13_51B8, if v & 0x0000_0010 == 0 then 0 else 0x0384_D46E),
      Sum(if v & 0x0000_0008 == 0 then 0 else 0xED59_B63B, if v & 0x0000_0004 == 0 then 0 else 0xA032_AF3E,
          if v & 0x0000_0002 == 0 then 0 else 0xC5B4_28EF, if v & 0x0000_0001 == 0 then 0 else 0xAA09_C88B))
  }

  lemma SpreadByte3(v: word)
    ensures Spread(v, 0x0000_0080, 0xE135_1B80) == Xor(Byte3(v), Spread(v, 0, 0xB1E6_B092))
  {
    hide Spread, Sum, Xor;
    SpreadStep(v, 0x0000_0080, 0xE135_1B80, 0x0000_0040, 0x384D_46E0);
    SpreadStep(v, 0x0000_0040, 0x384D_46E0, 0x0000_0020, 0x0E13_51B8);
    SpreadStep(v, 0x0000_0020, 0x0E13_51B8, 0x0000_0010, 0x0384_D46E);
    SpreadStep(v, 0x0000_0010, 0x0384_D46E, 0x0000_0008, 0xED59_B63B);
    SpreadStep(v, 0x0000_0008, 0xED59_B63B, 0x0000_0004, 0xA032_AF3E);
    SpreadStep(v, 0x0000_0004, 0xA032_AF3E, 0x0000_0002, 0xC5B4_28EF);
    SpreadStep(v, 0x0000_0002, 0xC5B4_28EF, 0x0000_0001, 0xAA09_C88B);
    SpreadStep(v, 0x0000_0001, 0xAA09_C88B, 0, 0xB1E6_B092);
    SumChain(Pick(v, 0x0000_0080, 0xE135_1B80), Pick(v, 0x0000_0040, 0x384D_46E0),
             Pick(v, 0x0000_0020, 0x0E13_51B8), Pick(v, 0x0000_0010, 0x0384_D46E),
             Spread(v, 0x0000_0008, 0xED59_B63B));
    SumChain(Pick(v, 0x0000_0008, 0xED59_B63B), Pick(v, 0x0000_0004, 0xA032_AF3E),
             Pick(v, 0x0000_0002, 0xC5B4_28EF), Pick(v, 0x0000_0001, 0xAA09_C88B),
             Spread(v, 0, 0xB1E6_B092));
    XorAssociative(Sum(Pick(v, 0x0000_0080, 0xE135_1B80), Pick(v, 0x0000_0040, 0x384D_46E0),
                       Pick(v, 0x0000_0020, 0x0E13_51B8), Pick(v, 0x0000_0010, 0x0384_D46E)),
                   Sum(Pick(v, 0x0000_0008, 0xED59_B63B), Pick(v, 0x0000_0004, 0xA032_AF3E),
                       Pick(v, 0x0000_0002, 0xC5B4_28EF), Pick(v, 0x0000_0001, 0xAA09_C88B)),
                   Spread(v, 0, 0xB1E6_B092));
  }

  /* The square of a polynomial is the sum of one term for each of its four bytes. */
  lemma SquareByBytes(v: word)
    ensures Square(v) == Sum(Byte0(v), Byte1(v), Byte2(v), Byte3(v))
  {
    hide Byte0, Byte1, Byte2, Byte3, Spread, Xor;
    SpreadByte0(v);
    SpreadByte1(v);
    SpreadByte2(v);
    SpreadByte3(v);
    SpreadEnd(v, 0xB1E6_B092);
    SumChain(Byte0(v), Byte1(v), Byte2(v), Byte3(v), 0);
    XorIdentities(Sum(Byte0(v), Byte1(v), Byte2(v), Byte3(v)));
  }

  lemma SpreadEnd(v: word, c: word)
    ensures Spread(v, 0, c) == 0
  {
  }

  /* A square computed: a, b, c and d are the terms of the bytes of v. */
  lemma SquareIs(v: word, a: word, b: word, c: word, d: word, w: word)
    requires Byte0(v) == a && Byte1(v) == b && Byte2(v) == c && Byte3(v) == d && Sum(a, b, c, d) == w
    ensures Square(v) == w
  {
    hide Byte0, Byte1, Byte2, Byte3, Sum;
    SquareByBytes(v);
  }

  lemma SquareOfOne()
    ensures Square(ONE) == ONE
    ensures Square(Shift(1)) == Shift(Shift(Square(1)))
  {
    hide Square;
    SquareIs(0x8000_0000, 0x8000_0000, 0x0000_0000, 0x0000_0000, 0x0000_0000, 0x8000_0000);
    SquareIs(0x0000_0001, 0x0000_0000, 0x0000_0000, 0x0000_0000, 0xAA09_C88B, 0xAA09_C88B);
    SquareIs(0xEDB8_8320, 0xA8A2_0000, 0x0000_8A80, 0x1757_6BAA, 0x0E13_51B8, 0xB1E6_B092);
  }

  // ----- exponents doubled -----

  lemma Doubled(e: nat, v: word, a: word, b: word, c: word, d: word, w: word)
    requires Power(e) == v && Byte0(v) == a && Byte1(v) == b && Byte2(v) == c && Byte3(v) == d && Sum(a, b, c, d) == w
    ensures Power(2 * e) == w
  {
    hide Power, Square, Byte0, Byte1, Byte2, Byte3, Sum;
    PowerDouble(e);
    SquareIs(v, a, b, c, d, w);
  }

  lemma Followed(e: nat, v: word, w: word)
    requires Power(e) == v && Shift(v) == w
    ensures Power(e + 1) == w
  {
    hide Shift;
  }
}
