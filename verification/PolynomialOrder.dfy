/**
 The order of x modulo the CRC polynomial is 2^32 - 1: every pair of bits less
 than 2^32 - 1 places apart moves the checksum differently.
 */
module PolynomialOrder {
  import opened Crc
  import opened CrcPowers
  import opened PowerChains

  lemma FirstPower()
    ensures Power(1) == 0x4000_0000
  {
  }

  /* x^(2^32) is x again. */
  lemma BackToX()
    ensures Power(0x1_0000_0000) == Power(1)
  {
    hide Power;
    FirstPower();
    Doublings0(1);
    Doublings1(256);
    Doublings2(0x1_0000);
    Doublings3(0x100_0000);
  }

  // ----- the period of the powers -----

  predicate Returns(k: nat) {
    Power(k) == ONE
  }

  lemma ReturnsDrop(j: nat, k: nat)
    requires Returns(k)
    ensures Power(k + j) == Power(j)
  {
    PowerAdd(k, j);
  }

  lemma {:induction false} ReturnsMultiple(k: nat, t: nat)
    requires Returns(k)
    ensures Returns(t * k)
    decreases t
  {
    if t > 0 {
      ReturnsMultiple(k, t - 1);
      ReturnsDrop(k, (t - 1) * k);
      assert t * k == (t - 1) * k + k;
    }
  }

  predicate Prime(p: nat) {
    p > 1 && forall t :: 1 < t < p ==> p % t != 0
  }

  /* t counts in steps of m: x^(t m) is 1. */
  predicate StepReturns(m: nat, t: nat) {
    Returns(t * m)
  }

  lemma StepRemainder(m: nat, n: nat, t: nat)
    requires StepReturns(m, n) && StepReturns(m, t) && t > 0
    ensures StepReturns(m, n % t)
  {
    var q := n / t;
    ReturnsMultiple(t * m, q);
    ReturnsDrop(n % t * m, q * (t * m));
    assert n * m == q * (t * m) + n % t * m by {
      assert n == q * t + n % t;
    }
  }

  /* The least positive t with x^(t m) = 1, at most n. */
  lemma {:induction false} LeastReturn(m: nat, n: nat) returns (t: nat)
    requires StepReturns(m, n) && n > 0
    ensures 0 < t <= n && StepReturns(m, t)
    ensures forall u :: 0 < u < t ==> !StepReturns(m, u)
    decreases n
  {
    if u :| 0 < u < n && StepReturns(m, u) {
      t := LeastReturn(m, u);
    } else {
      t := n;
    }
  }

  /* When x^(p m) is 1 and x^m is not, for a prime p, every return is at a multiple of p. */
  lemma PrimeDividesReturns(p: nat, m: nat, k: nat)
    requires Prime(p) && Returns(p * m) && !Returns(m) && Returns(k)
    ensures k % p == 0
  {
    var t := LeastReturn(m, p);
    StepRemainder(m, p, t);
    assert p % t == 0;
    assert t != 1 by {
      assert 1 * m == m;
    }
    assert t == p;
    ReturnsMultiple(k, m);
    assert k * m == m * k;
    StepRemainder(m, k, p);
  }

  // ----- the prime factors of 2^32 - 1 -----

  lemma NoDivisor257(t: nat)
    requires 1 < t < 257
    ensures 257 % t != 0
  {
  }

  lemma NoSmallDivisor(t: nat)
    requires 2 <= t <= 256
    ensures 65537 % t != 0
  {
  }

  lemma NoMultipleBetween(t: nat, z: int)
    ensures !(0 < t * z < t)
  {
    if z <= 0 {
      assert t * z <= 0;
    } else {
      assert t * z >= t;
    }
  }

  lemma NoSmallFactor(t: nat, e: nat)
    requires 2 <= t <= 256
    ensures t * e != 65537
  {
    NoSmallDivisor(t);
    var d := 65537 / t;
    assert 65537 == t * d + 65537 % t;
    assert t * (e - d) == t * e - t * d;
    NoMultipleBetween(t, e - d);
  }

  lemma NoFactors(t: nat, e: nat)
    requires 1 < t && 1 < e
    ensures t * e != 65537
  {
    if t <= 256 {
      NoSmallFactor(t, e);
    } else if e <= 256 {
      NoSmallFactor(e, t);
      assert e * t == t * e;
    } else {
      assert t * e >= 257 * 257;
    }
  }

  lemma Primes()
    ensures Prime(3) && Prime(5) && Prime(17) && Prime(257) && Prime(65537)
  {
    forall t | 1 < t < 257
      ensures 257 % t != 0
    {
      NoDivisor257(t);
    }
    forall t | 1 < t < 65537
      ensures 65537 % t != 0
    {
      NoFactors(t, if 65537 / t > 1 then 65537 / t else 2);
    }
  }

  /* A common multiple of coprime m and n is a multiple of their product. */
  lemma CoprimeMultiple(k: nat, m: nat, n: nat, u: int, v: int)
    requires m > 0 && n > 0 && u * m + v * n == 1 && k % m == 0 && k % n == 0
    ensures k % (m * n) == 0
  {
    var a, b := k / m, k / n;
    assert k == a * m && k == b * n;
    var q := b * u + a * v;
    assert k == k * (u * m + v * n) == b * n * (u * m) + a * m * (v * n) == m * n * q by {
      assert k * (u * m) == b * n * (u * m) == m * n * (b * u);
      assert k * (v * n) == a * m * (v * n) == m * n * (a * v);
    }
    ProductRemainder(m * n, q, k);
  }

  lemma ProductRemainder(d: nat, q: int, k: nat)
    requires d > 0 && k == d * q
    ensures k % d == 0
  {
    var r := k % d;
    assert r == d * (q - k / d);
    NoMultipleBetween(d, q - k / d);
  }

  lemma CommonMultiple(k: nat)
    requires k % 3 == 0 && k % 5 == 0 && k % 17 == 0 && k % 257 == 0 && k % 65537 == 0
    ensures k % 0xFFFF_FFFF == 0
  {
    CoprimeMultiple(k, 3, 5, 2, -1);
    CoprimeMultiple(k, 15, 17, 8, -7);
    CoprimeMultiple(k, 255, 257, 128, -127);
    CoprimeMultiple(k, 65535, 65537, 32768, -32767);
  }

  // ----- the powers have not returned after (2^32 - 1) / p steps -----

  /* If x^f is not fixed by raising it to the power g + 1, then x^(f g) is not 1. */
  lemma NotFixed(f: nat, g: nat)
    requires Power((g + 1) * f) != Power(f)
    ensures !Returns(g * f)
  {
    hide Power;
    assert g * f + f == (g + 1) * f;
    if Returns(g * f) {
      ReturnsDrop(f, g * f);
    }
  }

  lemma NotBackAt65535()
    ensures !Returns(65535)
  {
    hide Power;
    FirstPower();
    Doublings0(1);
    Doublings1(256);
    NotFixed(1, 65535);
  }

  lemma NotBackFor257()
    ensures !Returns(255 * 65537)
  {
    hide Power;
    FirstPower();
    Doublings0(1);
    Doublings1(256);
    Followed(65536, 0x8385_2D0F, 0xAC7A_15A7);
    SubfieldOf16(65537);
    NotFixed(65537, 255);
  }

  lemma NotBackFor17()
    ensures !Returns(15 * 0x0101_0101)
  {
    hide Power;
    FirstPower();
    Doublings0(1);
    Followed(256, 0xED62_7DAE, 0x76B1_3ED7);
    SubfieldOf8Step0(257);
    SubfieldOf8Step1(65793);
    SubfieldOf8(16843009);
    NotFixed(0x0101_0101, 15);
  }

  lemma NotBackFor5()
    ensures !Returns(3 * 0x1111_1111)
  {
    hide Power;
    FirstPower();
    SubfieldOf4Step0(1);
    SubfieldOf4Step1(273);
    SubfieldOf4Step2(69905);
    SubfieldOf4Step3(17895697);
    SubfieldOf4(286331153);
    NotFixed(0x1111_1111, 3);
  }

  lemma NotBackFor3()
    ensures !Returns(0x5555_5555)
  {
    hide Power;
    FirstPower();
    SubfieldOf2Step0(1);
    SubfieldOf2Step1(341);
    SubfieldOf2Step2(87381);
    SubfieldOf2Step3(22369621);
    SubfieldOf2(1431655765);
    NotFixed(0x5555_5555, 1);
  }

  // ----- the order of x -----

  lemma FullPeriodReturns()
    ensures Returns(0xFFFF_FFFF)
  {
    hide Shift;
    BackToX();
    ShiftsInjective(Power(0xFFFF_FFFF), ONE, 1);
  }

  /* Every return is at a multiple of 2^32 - 1. */
  lemma ReturnsOnlyAtMultiples(k: nat)
    requires Returns(k)
    ensures k % 0xFFFF_FFFF == 0
  {
    hide Returns;
    FullPeriodReturns();
    Primes();
    NotBackFor3();
    NotBackFor5();
    NotBackFor17();
    NotBackFor257();
    NotBackAt65535();
    PrimeDividesReturns(3, 0x5555_5555, k);
    PrimeDividesReturns(5, 3 * 0x1111_1111, k);
    PrimeDividesReturns(17, 15 * 0x0101_0101, k);
    PrimeDividesReturns(257, 255 * 65537, k);
    PrimeDividesReturns(65537, 65535, k);
    CommonMultiple(k);
  }

  /* x^k is 1 exactly when k is a multiple of 2^32 - 1: the polynomial is primitive. */
  lemma OrderOfX(k: nat)
    ensures Power(k) == ONE <==> k % 0xFFFF_FFFF == 0
  {
    hide Power;
    FullPeriodReturns();
    if Returns(k) {
      ReturnsOnlyAtMultiples(k);
    }
    if k % 0xFFFF_FFFF == 0 {
      ReturnsMultiple(0xFFFF_FFFF, k / 0xFFFF_FFFF);
    }
  }

  /* The first 2^32 - 1 powers of x are all different. */
  lemma PowersDistinct(j: nat, k: nat)
    requires j < k < 0xFFFF_FFFF
    ensures Power(j) != Power(k)
  {
    hide Shift;
    if Power(j) == Power(k) {
      PowerAdd(k - j, j);
      ShiftsInjective(Power(k - j), ONE, j);
      OrderOfX(k - j);
    }
  }
}
