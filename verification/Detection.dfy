/**
 What the checksum detects: every change of one or two bits anywhere in a
 frame, and every change confined to four consecutive bytes of the checksum's
 input, is rejected by the decoder.
 */
module Detection {
  import opened Words
  import opened Crc

  // ----- bursts -----

  predicate Zeros(s: seq<byte>) {
    forall i :: 0 <= i < |s| ==> s[i] == 0
  }

  lemma AbsorbZero(r: word)
    ensures Absorb(r, 0) == Shifts(r, 8)
  {
    XorIdentities(r);
  }

  lemma {:induction false} RegisterOfZeros(r: word, s: seq<byte>)
    requires Zeros(s)
    ensures Register(r, s) == Shifts(r, 8 * |s|)
    decreases |s|
  {
    hide Shift, Xor, Widen;
    if s != [] {
      var n := |s| - 1;
      RegisterOfZeros(r, s[..n]);
      AbsorbZero(Register(r, s[..n]));
      ShiftsAdd(r, 8 * n, 8);
    }
  }

  lemma {:induction false} ZeroStays(n: nat)
    ensures Shifts(0, n) == 0
    decreases n
  {
    if n > 0 {
      ZeroStays(n - 1);
    }
  }

  function Lane(b: byte, n: nat): word
    requires n < 4
  {
    match n
    case 0 => b as word
    case 1 => b as word << 8
    case 2 => b as word << 16
    case 3 => b as word << 24
  }

  lemma LaneShift(b: byte, n: nat)
    requires 0 < n < 4
    ensures Shifts(Lane(b, n), 8) == Lane(b, n - 1)
  {
    LaneBits(b, n);
    ShiftsOfHigh(Lane(b, n));
  }

  lemma LaneBits(b: byte, n: nat)
    requires 0 < n < 4
    ensures HighBits(Lane(b, n)) == Lane(b, n) && Lane(b, n) >> 8 == Lane(b, n - 1)
  {
  }

  lemma {:induction false} LaneShifts(b: byte, n: nat)
    requires n < 4
    ensures Shifts(Lane(b, n), 8 * n) == Widen(b)
    decreases n
  {
    hide Shift;
    if n > 0 {
      LaneShift(b, n);
      LaneShifts(b, n - 1);
      ShiftsAdd(Lane(b, n), 8, 8 * (n - 1));
    }
  }

  /* Absorbing a byte late is the same as adding it, moved up, early. */
  lemma AbsorbLane(x: word, b: byte, n: nat)
    requires n < 4
    ensures Absorb(Shifts(x, 8 * n), b) == Shifts(Xor(x, Lane(b, n)), 8 * n + 8)
  {
    hide Lane, Xor, Shift;
    LaneShifts(b, n);
    ShiftsOfXor(x, Lane(b, n), 8 * n);
    ShiftsAdd(Xor(x, Lane(b, n)), 8 * n, 8);
  }

  lemma LanesJoin(r: word, a: byte, b: byte, c: byte, d: byte)
    ensures Xor(Xor(Xor(Xor(r, Lane(a, 0)), Lane(b, 1)), Lane(c, 2)), Lane(d, 3)) == Xor(r, Join(d, c, b, a))
  {
    LaneSums(Lane(a, 0), Lane(b, 1), Lane(c, 2), Lane(d, 3), r);
    assert Xor(Xor(Xor(Lane(a, 0), Lane(b, 1)), Lane(c, 2)), Lane(d, 3)) == Join(d, c, b, a);
  }

  lemma LaneSums(a: word, b: word, c: word, d: word, r: word)
    ensures Xor(Xor(Xor(Xor(r, a), b), c), d) == Xor(r, Xor(Xor(Xor(a, b), c), d))
  {
    XorAssociative(r, a, b);
    XorAssociative(r, Xor(a, b), c);
    XorAssociative(r, Xor(Xor(a, b), c), d);
  }

  lemma RegisterStep(r: word, s: seq<byte>, b: byte)
    ensures Register(r, s + [b]) == Absorb(Register(r, s), b)
  {
    assert (s + [b])[..|s|] == s;
  }

  lemma RegisterOfTwo(r: word, s: seq<byte>)
    requires |s| == 2
    ensures Register(r, s) == Absorb(Absorb(r, s[0]), s[1])
  {
    RegisterStep(r, s[..1], s[1]);
    RegisterStep(r, [], s[0]);
    assert s == s[..1] + [s[1]] && s[..1] == [] + [s[0]];
  }

  lemma RegisterOfFour(r: word, w: seq<byte>)
    requires |w| == 4
    ensures Register(r, w) == Absorb(Absorb(Absorb(Absorb(r, w[0]), w[1]), w[2]), w[3])
  {
    var first, second := w[..2], w[2..];
    assert w == first + second;
    RegisterConcat(r, first, second);
    RegisterOfTwo(r, first);
    RegisterOfTwo(Register(r, first), second);
  }

  lemma AbsorbLanes(r: word, a: byte, b: byte, c: byte, d: byte)
    ensures Absorb(Absorb(Absorb(Absorb(r, a), b), c), d) ==
            Shifts(Xor(Xor(Xor(Xor(r, Lane(a, 0)), Lane(b, 1)), Lane(c, 2)), Lane(d, 3)), 32)
  {
    hide Lane, Xor, Shift, Absorb;
    AbsorbLane(r, a, 0);
    AbsorbLane(Xor(r, Lane(a, 0)), b, 1);
    AbsorbLane(Xor(Xor(r, Lane(a, 0)), Lane(b, 1)), c, 2);
    AbsorbLane(Xor(Xor(Xor(r, Lane(a, 0)), Lane(b, 1)), Lane(c, 2)), d, 3);
  }

  lemma AbsorbFour(r: word, w: seq<byte>)
    requires |w| == 4
    ensures Register(r, w) == Shifts(Xor(r, Join(w[3], w[2], w[1], w[0])), 32)
  {
    RegisterOfFour(r, w);
    AbsorbLanes(r, w[0], w[1], w[2], w[3]);
    LanesJoin(r, w[0], w[1], w[2], w[3]);
  }

  /* Four bytes take the register anywhere, and only one choice of them goes to a given place. */
  lemma FourBytesReach(r: word, target: word) returns (w: seq<byte>)
    ensures |w| == 4 && Register(r, w) == target
    ensures forall v: seq<byte> | |v| == 4 && Register(r, v) == target :: v == w
  {
    var s := SplitWord(Xor(Unshifts(target, 32), r));
    w := [s[3], s[2], s[1], s[0]];
    AbsorbFour(r, w);
    JoinOfSplit(Xor(Unshifts(target, 32), r));
    Restore(Unshifts(target, 32), r);
    ShiftsOfUnshifts(target, 32);
    forall v: seq<byte> | |v| == 4 && Register(r, v) == target
      ensures v == w
    {
      SameWindow(r, v, w);
    }
  }

  lemma Restore(a: word, r: word)
    ensures Xor(r, Xor(a, r)) == a
  {
    XorCommutative(a, r);
    XorAssociative(r, r, a);
    XorIdentities(r);
    XorIdentities(a);
  }

  lemma SameWindow(r: word, v: seq<byte>, w: seq<byte>)
    requires |v| == |w| == 4 && Register(r, v) == Register(r, w)
    ensures v == w
  {
    hide Join, Xor, Shifts;
    var a, b := Join(v[3], v[2], v[1], v[0]), Join(w[3], w[2], w[1], w[0]);
    AbsorbFour(r, v);
    AbsorbFour(r, w);
    ShiftsInjective(Xor(r, a), Xor(r, b), 32);
    XorCommutative(r, a);
    XorCommutative(r, b);
    XorCancel(a, b, r);
    XorIdentities(Xor(a, r));
    EqualWhenCancelling(a, b);
    WordBytes(v[3], v[2], v[1], v[0]);
    WordBytes(w[3], w[2], w[1], w[0]);
  }

  /* Two inputs agree outside the four bytes from position i. */
  predicate DifferOnlyInWindow(a: seq<byte>, b: seq<byte>, i: nat) {
    |a| == |b| && forall k :: 0 <= k < |a| && !(i <= k < i + 4) ==> a[k] == b[k]
  }

  lemma SameByte(a: byte, b: byte)
    ensures a ^ b == 0 <==> a == b
  {
  }

  /* A change confined to four consecutive bytes changes the checksum. */
  lemma BurstChangesCrc(a: seq<byte>, b: seq<byte>, i: nat)
    requires DifferOnlyInWindow(a, b, i) && a != b
    ensures Crc32(a) != Crc32(b)
  {
    var d := Difference(a, b);
    var k :| 0 <= k < |a| && a[k] != b[k];
    SameByte(a[k], b[k]);
    assert d[k] != 0;
    forall j | 0 <= j < |d| && !(i <= j < i + 4)
      ensures d[j] == 0
    {
      SameByte(a[j], b[j]);
    }
    WindowReaches(d, i, k);
    CrcDifference(a, b);
    XorIdentities(Crc32(a));
  }

  lemma RegisterAround(before: seq<byte>, window: seq<byte>, after: seq<byte>)
    requires Zeros(before) && Zeros(after)
    ensures Register(0, before + window + after) == Shifts(Register(0, window), 8 * |after|)
  {
    RegisterConcat(0, before + window, after);
    RegisterConcat(0, before, window);
    RegisterOfZeros(0, before);
    ZeroStays(8 * |before|);
    RegisterOfZeros(Register(0, window), after);
  }

  lemma NonzeroWindow(window: seq<byte>, k: nat)
    requires |window| == 4 && k < 4 && window[k] != 0
    ensures Register(0, window) != 0
  {
    if Register(0, window) == 0 {
      RegisterOfZeros(0, [0, 0, 0, 0]);
      ZeroStays(32);
      SameWindow(0, window, [0, 0, 0, 0]);
    }
  }

  lemma NonzeroStays(r: word, n: nat)
    requires r != 0
    ensures Shifts(r, n) != 0
  {
    if Shifts(r, n) == 0 {
      ZeroStays(n);
      ShiftsInjective(r, 0, n);
    }
  }

  lemma PaddedWindow(e: seq<byte>, i: nat, k: nat)
    requires i + 4 <= |e| && i <= k < i + 4 && e[k] != 0
    requires forall j :: 0 <= j < |e| && !(i <= j < i + 4) ==> e[j] == 0
    ensures Register(0, e) != 0
  {
    hide Register, Shifts;
    var before, window, after := e[..i], e[i..i + 4], e[i + 4..];
    assert e == before + window + after;
    RegisterAround(before, window, after);
    assert window[k - i] != 0;
    NonzeroWindow(window, k - i);
    NonzeroStays(Register(0, window), 8 * |after|);
  }

  lemma WindowReaches(d: seq<byte>, i: nat, k: nat)
    requires k < |d| && d[k] != 0
    requires forall j :: 0 <= j < |d| && !(i <= j < i + 4) ==> d[j] == 0
    ensures Register(0, d) != 0
  {
    hide Shifts, Shift, Absorb;
    // Four trailing zero bytes make sure that the whole window lies inside.
    var tail := [0, 0, 0, 0];
    PaddedWindow(d + tail, i, k);
    RegisterConcat(0, d, tail);
    RegisterOfZeros(Register(0, d), tail);
    if Register(0, d) == 0 {
      ZeroStays(8 * 4);
    }
  }
}
