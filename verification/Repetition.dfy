/**
 The same thing several times over.
 */
module Repetition {
  function Copies<T>(x: T, n: nat): (xs: seq<T>)
    ensures |xs| == n && forall i :: 0 <= i < n ==> xs[i] == x
  {
    seq(n, i => x)
  }

  lemma CopiesNext<T>(x: T, n: nat)
    ensures Copies(x, 0) == [] && Copies(x, n + 1) == Copies(x, n) + [x]
  {
  }
}
