/**
 What the start value of the checksum is for: without it, zero bytes in front
 of the data would go unnoticed.
 */
module LeadingZeros {
  import opened Words
  import opened Crc
  import opened CrcPowers
  import opened PowerChains
  import opened PolynomialOrder
  import opened Detection

  /* The start value is a power of x. */
  lemma StartIsPower()
    ensures Power(0xB844_9066) == INITIAL
  {
    hide Power;
    FirstPower();
    OnesStep0(1);
    OnesStep1(184);
    OnesStep2(47172);
    OnesStep3(12076176);
  }

  lemma {:induction false} RegisterInjective(r: word, s: word, data: seq<byte>)
    requires Register(r, data) == Register(s, data)
    ensures r == s
    decreases |data|
  {
    hide Xor, Widen, Shifts;
    if data != [] {
      var n := |data| - 1;
      var a, b := Register(r, data[..n]), Register(s, data[..n]);
      ShiftsInjective(Xor(a, Widen(data[n])), Xor(b, Widen(data[n])), 8);
      XorCancel(a, b, Widen(data[n]));
      XorIdentities(Xor(a, Widen(data[n])));
      EqualWhenCancelling(a, b);
      RegisterInjective(r, s, data[..n]);
    }
  }

  lemma ComplementInjective(a: word, b: word)
    requires Xor(a, INITIAL) == Xor(b, INITIAL)
    ensures a == b
  {
  }

  /* The start value comes back after k bit steps exactly when k is a multiple of the order of x. */
  lemma StartReturns(k: nat)
    ensures Shifts(INITIAL, k) == INITIAL <==> k % 0xFFFF_FFFF == 0
  {
    hide Power, Shifts;
    var j := 0xB844_9066;
    StartIsPower();
    PowerAdd(j, k);
    PowerAdd(k, j);
    OrderOfX(k);
    if Power(k + j) == Power(j) {
      PowerIsShifted(j);
      ShiftsInjective(Power(k), ONE, j);
    } else if Power(k) == ONE {
      PowerIsShifted(j);
    }
  }

  lemma PowerIsShifted(j: nat)
    ensures Power(j) == Shifts(ONE, j)
  {
  }

  lemma EightTimes(n: nat)
    ensures 8 * n % 0xFFFF_FFFF == 0 <==> n % 0xFFFF_FFFF == 0
  {
    var q := n / 0xFFFF_FFFF;
    assert n == 0xFFFF_FFFF * q + n % 0xFFFF_FFFF;
  }

  /* Zero bytes in front of the data leave the checksum as it is exactly when their number is a multiple of
     2^32 - 1; so fewer of them never do. */
  lemma ZerosInFront(zeros: seq<byte>, data: seq<byte>)
    requires Zeros(zeros)
    ensures Crc32(zeros + data) == Crc32(data) <==> |zeros| % 0xFFFF_FFFF == 0
  {
    hide Register, Shifts, Xor;
    var moved := Shifts(INITIAL, 8 * |zeros|);
    RegisterConcat(INITIAL, zeros, data);
    RegisterOfZeros(INITIAL, zeros);
    StartReturns(8 * |zeros|);
    EightTimes(|zeros|);
    if Crc32(zeros + data) == Crc32(data) {
      ComplementInjective(Register(moved, data), Register(INITIAL, data));
      RegisterInjective(moved, INITIAL, data);
    }
  }
}
