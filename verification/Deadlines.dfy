/**
 Time in nanoseconds, and the rounding that turns it into a poll timeout.
 */
module Deadlines {
  const MS: nat := 1_000_000

  /* The milliseconds passed to poll: the remaining time, rounded up. */
  function CeilMs(remaining: nat): (ms: nat)
    ensures remaining <= ms * MS < remaining + MS
  {
    (remaining + MS - 1) / MS
  }

  /* The time that n waits take at least, if all of them time out. */
  function Waits(n: nat, timeout: nat): nat {
    n * timeout
  }

  lemma WaitsNext(n: nat, timeout: nat)
    ensures Waits(0, timeout) == 0 && Waits(n + 1, timeout) == Waits(n, timeout) + timeout
  {
  }
}
