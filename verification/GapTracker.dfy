/**
 The first missing sequence number: counting from 1 upwards and round through
 0, the first uint32 value that has not been processed.
 */
module GapTracker {
  import opened Words

  const VALUES: nat := 0x1_0000_0000

  /* The k-th value in counting order: 1, 2, ..., 2^32 - 1, 0. */
  function Counted(k: nat): u32 {
    (k + 1) % VALUES
  }

  /* The position of e in counting order. */
  function Position(e: u32): (k: nat)
    ensures k < VALUES && Counted(k) == e
  {
    if e == 0 then VALUES - 1 else e - 1
  }

  function Successor(e: u32): u32 {
    (e + 1) % VALUES
  }

  /* Every value before e in counting order has been processed. */
  ghost predicate AllBefore(e: u32, processed: set<u32>) {
    forall k: nat :: k < Position(e) ==> Counted(k) in processed
  }

  ghost predicate FirstMissing(e: u32, processed: set<u32>) {
    e !in processed && AllBefore(e, processed)
  }

  /* A positive number smaller than s is missing. */
  ghost predicate GapBelow(s: u32, processed: set<u32>) {
    exists k: u32 :: 1 <= k < s && k !in processed
  }

  lemma AllBeforeStays(e: u32, processed: set<u32>, more: set<u32>)
    requires AllBefore(e, processed) && processed <= more
    ensures AllBefore(e, more)
  {
  }

  /* There is only one first missing value, so it depends on nothing but the set. */
  lemma FirstMissingUnique(d: u32, e: u32, processed: set<u32>)
    requires FirstMissing(d, processed) && FirstMissing(e, processed)
    ensures d == e
  {
    assert Position(d) < Position(e) ==> Counted(Position(d)) in processed;
    assert Position(e) < Position(d) ==> Counted(Position(e)) in processed;
  }

  lemma {:induction false} CountBelow(n: nat) returns (s: set<u32>)
    requires n <= VALUES
    ensures |s| == n && forall x: u32 :: x in s <==> x < n
    decreases n
  {
    if n == 0 {
      s := {};
    } else {
      s := CountBelow(n - 1);
      s := s + {n - 1};
    }
  }

  /* Fewer than 2^32 processed numbers leave one missing. */
  lemma SomeMissing(processed: set<u32>) returns (e: u32)
    requires |processed| < VALUES
    ensures e !in processed
  {
    var all := CountBelow(VALUES);
    assert (forall x: u32 :: x in processed) ==> processed == all;
    e :| e !in processed;
  }

  /* The receiver's advance loop. */
  method Advance(start: u32, processed: set<u32>) returns (e: u32)
    requires |processed| < VALUES
    requires AllBefore(start, processed)
    ensures FirstMissing(e, processed)
  {
    ghost var missing := SomeMissing(processed);
    assert Position(missing) < Position(start) ==> Counted(Position(missing)) in processed;
    e := start;
    while e in processed
      invariant Position(e) <= Position(missing)
      invariant AllBefore(e, processed)
      decreases Position(missing) - Position(e)
    {
      assert e != missing;
      e := Successor(e);
    }
  }

  /* A new number exceeds the first missing one exactly when a smaller positive number is missing. */
  lemma ReportExact(s: u32, expected: u32, processed: set<u32>)
    requires FirstMissing(expected, processed) && s !in processed
    ensures s > expected <==> GapBelow(s, processed)
  {
    assert expected == 0 && s > 0 ==> Counted(s - 1) in processed;
    assert s > expected ==> 1 <= expected < s && expected !in processed;
    forall k: u32 | 1 <= k < s && k !in processed
      ensures s > expected
    {
      assert Position(k) < Position(expected) ==> Counted(Position(k)) in processed;
    }
  }
}
