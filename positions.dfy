/**
 * Position arithmetic shared by the ring and its readers. Positions and the
 * write counter are unsigned 64-bit integers; every step wraps explicitly,
 * and the visibility window is written with guarded comparisons so that no
 * subtraction ever goes below zero.
 */
module Positions {

  const U64_LIMIT: int := 0x1_0000_0000_0000_0000
  const U64_MAX: int := U64_LIMIT - 1

  /** An unsigned 64-bit position (Go's `uint64`). */
  type u64 = x: int | 0 <= x < 0x1_0000_0000_0000_0000

  function Max(a: int, b: int): int {
    if a < b then b else a
  }

  /** Unsigned increment: `p + 1` with wrap-around at 2^64. */
  function Inc(p: u64): (q: u64)
    ensures q == (p + 1) % U64_LIMIT
  {
    if p == U64_MAX then 0 else p + 1
  }

  /** Unsigned decrement: `p - 1` with wrap-around below 0. */
  function Dec(p: u64): (q: u64)
    ensures q == (p - 1) % U64_LIMIT
  {
    if p == 0 then U64_MAX else p - 1
  }

  /** The position `k` forward steps from `p`. */
  function Forward(p: u64, k: nat): u64 {
    (p + k) % U64_LIMIT
  }

  /** The position `k` backward steps from `p`. */
  function Backward(p: u64, k: nat): u64 {
    (p - k) % U64_LIMIT
  }

  /** Taking one forward step first and then `k` more is `k + 1` forward steps. */
  lemma ForwardStep(p: u64, k: nat)
    ensures Forward(Inc(p), k) == Forward(p, k + 1)
  {
  }

  /** Taking one backward step first and then `k` more is `k + 1` backward steps. */
  lemma BackwardStep(p: u64, k: nat)
    ensures Backward(Dec(p), k) == Backward(p, k + 1)
  {
  }

  /** A backward step and a forward step undo each other, across the wrap too. */
  lemma StepsAreInverse(p: u64)
    ensures Inc(Dec(p)) == p && Dec(Inc(p)) == p
  {
  }

  /**
   * Whether position `p` may be read after `v` writes into a ring of `c`
   * slots: it has been written, it is not the newest (staged) write, and its
   * slot has not been reused since. Stated with guarded comparisons; the
   * postcondition gives the same window in plain integer terms.
   */
  function Visible(v: nat, c: nat, p: nat): (b: bool)
    ensures b <==> 2 <= v && Max(0, v - c) <= p <= v - 2
    ensures b ==> p < v
  {
    2 <= v && p <= v - 2 && (v <= c || v - c <= p)
  }
}
