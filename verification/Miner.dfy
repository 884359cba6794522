// The nonce search of one miner, and what its answer is.

module Miner {
  import opened Split

  /** The order answers are compared in: smaller hash first, then smaller nonce. */
  predicate LexLe(h0: int, n0: int, h1: int, n1: int) {
    h0 < h1 || (h0 == h1 && n0 <= n1)
  }

  /** (h, n) is the least hash on [lo, hi] with the least nonce attaining it. */
  ghost predicate Least(hash: (string, uint64) -> uint64, data: string, lo: uint64, hi: uint64, h: uint64, n: uint64) {
    && lo <= n <= hi
    && h == hash(data, n)
    && (forall k: uint64 :: lo <= k <= hi ==> LexLe(h, n, hash(data, k), k))
  }

  /** What an honest miner returns for a block: its least pair, or the start values when the block is empty. */
  ghost predicate Honest(hash: (string, uint64) -> uint64, r: Request, h: uint64, n: uint64) {
    if Empty(r) then h == n == MAX64 else Least(hash, r.data, r.lower, r.upper, h, n)
  }

  /** The nonce of the loop after `k` passes; it is an unsigned 64-bit number and wraps. */
  function Passed(lower: uint64, k: nat): uint64 {
    (lower + k) % TWO64
  }

  /** Some pass leaves the block. */
  ghost predicate Ends(r: Request) {
    exists k: nat :: Passed(r.lower, k) > r.upper
  }

  /** The search of a block ends exactly when its upper end is below 2^64-1. */
  lemma SearchEndsIff(r: Request)
    ensures Ends(r) <==> r.upper < MAX64
  {
    if r.upper < MAX64 {
      var k := if r.lower <= r.upper then r.upper + 1 - r.lower else 0;
      assert Passed(r.lower, k) > r.upper;
    }
  }

  /** The search of a block, which has to end. */
  method Search(hash: (string, uint64) -> uint64, r: Request) returns (ans1: uint64, ans2: uint64)
    requires r.upper < MAX64
    ensures Honest(hash, r, ans1, ans2)
    ensures if r.lower > r.upper then ans1 == ans2 == MAX64
            else
              && r.lower <= ans2 <= r.upper && ans1 == hash(r.data, ans2)
              && forall k: uint64 :: r.lower <= k <= r.upper ==>
                   ans1 < hash(r.data, k) || (ans1 == hash(r.data, k) && ans2 <= k)
  {
    ans2 := MAX64;
    ans1 := MAX64;
    var i := r.lower;
    while i <= r.upper
      invariant r.lower <= i && (i <= r.upper + 1 || i == r.lower)
      invariant i == r.lower ==> ans1 == ans2 == MAX64
      invariant i > r.lower && !(ans1 == ans2 == MAX64) ==> r.lower <= ans2 < i && ans1 == hash(r.data, ans2)
      invariant forall k: uint64 :: r.lower <= k < i ==> LexLe(ans1, ans2, hash(r.data, k), k)
      decreases r.upper + 1 - i
    {
      var hold := hash(r.data, i);
      if hold < ans1 {
        ans1 := hold;
        ans2 := i;
      } else if hold == ans1 {
        if i < ans2 {
          ans2 := i;
        }
      }
      i := i + 1;
    }
    assert !Empty(r) ==> LexLe(ans1, ans2, hash(r.data, r.lower), r.lower);
  }
}
