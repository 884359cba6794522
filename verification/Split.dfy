// How the server cuts 0..Upper into one block per miner, in unsigned 64-bit arithmetic.

module Split {

  const TWO64 := 0x1_0000_0000_0000_0000

  type uint64 = x: int | 0 <= x < TWO64

  const MAX64: uint64 := TWO64 - 1

  datatype Request = Request(data: string, lower: uint64, upper: uint64)

  predicate In(r: Request, n: int) {
    r.lower <= n <= r.upper
  }

  predicate Empty(r: Request) {
    r.lower > r.upper
  }

  /** `upper / m`, rounded up. */
  function BlockSize(upper: uint64, m: int): (size: int)
    requires m >= 1
    ensures size >= 0
  {
    upper / m + if upper % m != 0 then 1 else 0
  }

  lemma SizeBounds(upper: uint64, m: int)
    requires m >= 1
    ensures upper <= m * BlockSize(upper, m) <= upper + m - 1
    ensures 0 <= BlockSize(upper, m) <= upper
  {
    var q := upper / m;
    assert upper == m * q + upper % m;
    assert m * (q + 1) == m * q + m;
    if m == 1 {
      assert q == upper;
    } else if q > 0 {
      MulMono(2, m, q);
    }
  }

  /** Block number `ct` of blocks of `size` steps as the loop computes it: every sum and product wraps at 2^64. */
  function Piece(data: string, upper: uint64, size: int, ct: nat): Request {
    var lo: int := (ct * ((size + 1) % TWO64)) % TWO64;
    var hi: int := (lo + size) % TWO64;
    Request(data, lo, if hi > upper then upper else hi)
  }

  function Block(data: string, upper: uint64, m: int, ct: nat): Request
    requires m >= 1
  {
    Piece(data, upper, BlockSize(upper, m), ct)
  }

  /** The first `n` blocks of the loop over `m` miners. */
  function FirstBlocks(data: string, upper: uint64, m: int, n: nat): (bs: seq<Request>)
    requires m >= 1
    ensures |bs| == n
  {
    if n == 0 then [] else FirstBlocks(data, upper, m, n - 1) + [Block(data, upper, m, n - 1)]
  }

  function Blocks(data: string, upper: uint64, m: int): (bs: seq<Request>)
    requires m >= 1
    ensures |bs| == m
  {
    FirstBlocks(data, upper, m, m)
  }

  lemma {:induction false} BlockAt(data: string, upper: uint64, m: int, n: nat, i: nat)
    requires m >= 1 && i < n
    ensures FirstBlocks(data, upper, m, n)[i] == Block(data, upper, m, i)
  {
    if i < n - 1 {
      BlockAt(data, upper, m, n - 1, i);
    }
  }

  /** The last block starts below 2^64, and the last one that starts inside the range ends below it. */
  predicate Cuts(upper: uint64, m: int)
    requires m >= 1
  {
    var stride := BlockSize(upper, m) + 1;
    (m - 1) * stride < TWO64 && upper / stride * stride + stride <= TWO64
  }

  /** A range that is cut without loss over every table of at most `capacity` miners. */
  predicate Splittable(upper: uint64, capacity: nat) {
    forall m :: 1 <= m <= capacity ==> Cuts(upper, m)
  }

  /** The block that holds `n`. */
  function Home(upper: uint64, m: int, n: int): int
    requires m >= 1
  {
    n / (BlockSize(upper, m) + 1)
  }

  ghost predicate InSome(blocks: seq<Request>, n: int) {
    exists i :: 0 <= i < |blocks| && In(blocks[i], n)
  }

  /** Every number of 0..upper lies in exactly one block, and no block reaches outside. */
  ghost predicate Partitions(blocks: seq<Request>, upper: uint64) {
    && (forall n :: 0 <= n <= upper ==> InSome(blocks, n))
    && (forall i, j, n :: 0 <= i < j < |blocks| && In(blocks[i], n) ==> !In(blocks[j], n))
    && (forall i, n :: 0 <= i < |blocks| && In(blocks[i], n) ==> n <= upper)
  }

  lemma MulMono(a: int, b: int, k: int)
    requires 0 <= a <= b && 0 <= k
    ensures a * k <= b * k
  {
    assert b * k == a * k + (b - a) * k;
  }

  lemma ProductWraps(ct: nat, size: int)
    requires 0 <= size < TWO64 && ct * (size + 1) < TWO64
    ensures (ct * ((size + 1) % TWO64)) % TWO64 == ct * (size + 1)
  {
    if ct > 0 {
      MulMono(1, ct, size + 1);
      assert (size + 1) % TWO64 == size + 1;
    }
  }

  /** A block that starts below 2^64 starts where it should; its end may still wrap. */
  lemma BlockBounds(data: string, upper: uint64, m: int, ct: nat)
    requires m >= 1 && ct < m && ct * (BlockSize(upper, m) + 1) < TWO64
    ensures var size := BlockSize(upper, m);
            var b := Block(data, upper, m, ct);
            var end := if b.lower + size < TWO64 then b.lower + size else b.lower + size - TWO64;
            && b.lower == ct * (size + 1)
            && b.upper == if end > upper then upper else end
  {
    SizeBounds(upper, m);
    ProductWraps(ct, BlockSize(upper, m));
  }

  lemma DivIs(n: int, s: int, q: int)
    requires s >= 1
    ensures n / s == q <==> q * s <= n < q * s + s
  {
    var h := n / s;
    assert n == h * s + n % s;
    if h < q {
      assert q * s == h * s + (q - h) * s;
      MulMono(1, q - h, s);
    } else if h > q {
      assert h * s == q * s + (h - q) * s;
      MulMono(1, h - q, s);
    }
  }

  lemma HomeInRange(upper: uint64, m: int, n: int)
    requires m >= 1 && 0 <= n <= upper
    ensures 0 <= Home(upper, m, n) < m
  {
    var s := BlockSize(upper, m) + 1;
    SizeBounds(upper, m);
    DivIs(n, s, n / s);
    assert n / s >= 0 && m * s == m * BlockSize(upper, m) + m;
    if n / s >= m {
      MulMono(m, n / s, s);
      assert false;
    }
  }

  /** A range that leaves room for the miners is cut without loss. */
  lemma SmallEnough(upper: uint64, m: int)
    requires m >= 1 && upper + 2 * m - 2 < TWO64
    ensures Cuts(upper, m)
  {
    var stride := BlockSize(upper, m) + 1;
    SizeBounds(upper, m);
    HomeInRange(upper, m, upper);
    MulMono(upper / stride, m - 1, stride);
    assert (m - 1) * stride + stride == m * BlockSize(upper, m) + m;
  }

  lemma AllSplittable(upper: uint64, capacity: nat)
    requires upper + 2 * capacity - 2 < TWO64
    ensures Splittable(upper, capacity)
  {
    forall m | 1 <= m <= capacity
      ensures Cuts(upper, m)
    {
      SmallEnough(upper, m);
    }
  }

  /** A block of `stride` numbers from `lo`, when the last block inside the range starts at `q`. */
  lemma EndIsRight(lo: int, upper: int, stride: int, q: int, n: int)
    requires 0 <= lo < TWO64 && 1 <= stride <= TWO64 && (lo <= q || lo >= q + stride)
    requires 0 <= q <= upper < q + stride <= TWO64
    ensures var end := lo + stride - 1;
            var hi := if end < TWO64 then end else end - TWO64;
            lo <= n <= (if hi > upper then upper else hi) <==> 0 <= n <= upper && lo <= n < lo + stride
  {
  }

  lemma LastInside(upper: uint64, m: int, ct: nat)
    requires m >= 1 && Cuts(upper, m) && ct < m
    ensures var stride := BlockSize(upper, m) + 1;
            var lo, q := ct * stride, upper / stride * stride;
            && 0 <= lo < TWO64 && 1 <= stride <= TWO64 && (lo <= q || lo >= q + stride)
            && 0 <= q <= upper < q + stride <= TWO64
  {
    hide BlockSize;
    var stride := BlockSize(upper, m) + 1;
    SizeBounds(upper, m);
    MulMono(ct, m - 1, stride);
    DivIs(upper, stride, upper / stride);
    Positions(ct, upper / stride, stride);
  }

  lemma InBlockIff(data: string, upper: uint64, m: int, ct: nat, n: int)
    requires m >= 1 && Cuts(upper, m) && ct < m
    ensures In(Block(data, upper, m, ct), n) <==> 0 <= n <= upper && Home(upper, m, n) == ct
  {
    var stride := BlockSize(upper, m) + 1;
    LastInside(upper, m, ct);
    BlockBounds(data, upper, m, ct);
    DivIs(n, stride, ct);
    EndIsRight(ct * stride, upper, stride, upper / stride * stride, n);
  }

  lemma EmptyIff(data: string, upper: uint64, m: int, ct: nat)
    requires m >= 1 && Cuts(upper, m) && ct < m
    ensures Empty(Block(data, upper, m, ct)) <==> ct * (BlockSize(upper, m) + 1) > upper
    ensures ct * (BlockSize(upper, m) + 1) < TWO64
  {
    var stride := BlockSize(upper, m) + 1;
    LastInside(upper, m, ct);
    BlockBounds(data, upper, m, ct);
    EndIsRight(ct * stride, upper, stride, upper / stride * stride, ct * stride);
  }

  lemma InBlocksIff(data: string, upper: uint64, m: int, i: nat, n: int)
    requires m >= 1 && Cuts(upper, m) && i < m
    ensures In(Blocks(data, upper, m)[i], n) <==> 0 <= n <= upper && Home(upper, m, n) == i
  {
    BlockAt(data, upper, m, m, i);
    InBlockIff(data, upper, m, i, n);
  }

  /** Without overflow the blocks cut 0..upper exactly. */
  lemma SplitPartitions(data: string, upper: uint64, m: int)
    requires m >= 1 && Cuts(upper, m)
    ensures Partitions(Blocks(data, upper, m), upper)
  {
    var bs := Blocks(data, upper, m);
    forall n | 0 <= n <= upper
      ensures InSome(bs, n)
    {
      var h := Home(upper, m, n);
      HomeInRange(upper, m, n);
      InBlocksIff(data, upper, m, h, n);
      assert In(bs[h], n);
    }
    forall i, j, n | 0 <= i < j < |bs| && In(bs[i], n)
      ensures !In(bs[j], n)
    {
      InBlocksIff(data, upper, m, i, n);
      InBlocksIff(data, upper, m, j, n);
    }
    forall i, n | 0 <= i < |bs| && In(bs[i], n)
      ensures n <= upper
    {
      InBlocksIff(data, upper, m, i, n);
    }
  }

  /** What the scheduler relies on while a job runs. */
  ghost predicate CutOf(r: Request, split: seq<Request>) {
    && Partitions(split, r.upper)
    && (forall k :: 0 <= k < |split| ==> split[k].data == r.data)
    && (forall k :: 0 <= k < |split| && Empty(split[k]) ==> r.upper < MAX64)
  }

  lemma BlocksCut(r: Request, m: int)
    requires m >= 1 && Cuts(r.upper, m)
    ensures CutOf(r, Blocks(r.data, r.upper, m))
  {
    SplitPartitions(r.data, r.upper, m);
    forall k | 0 <= k < m
      ensures Blocks(r.data, r.upper, m)[k].data == r.data
    {
      BlockAt(r.data, r.upper, m, m, k);
    }
    forall k | 0 <= k < m && Empty(Blocks(r.data, r.upper, m)[k])
      ensures r.upper < MAX64
    {
      EmptyStartsAbove(r.data, r.upper, m, k);
    }
  }

  /** An empty block starts above `upper`. */
  lemma EmptyStartsAbove(data: string, upper: uint64, m: int, i: nat)
    requires m >= 1 && Cuts(upper, m) && i < m && Empty(Blocks(data, upper, m)[i])
    ensures upper < MAX64
  {
    BlockAt(data, upper, m, m, i);
    EmptyIff(data, upper, m, i);
  }

  /** A block is left without numbers exactly when the last one starts above `upper`. */
  lemma AllNonEmptyIff(data: string, upper: uint64, m: int)
    requires m >= 1 && Cuts(upper, m)
    ensures (forall i :: 0 <= i < m ==> !Empty(Blocks(data, upper, m)[i]))
            <==> (m - 1) * (BlockSize(upper, m) + 1) <= upper
  {
    var bs := Blocks(data, upper, m);
    forall i | 0 <= i < m
      ensures Empty(bs[i]) ==> (m - 1) * (BlockSize(upper, m) + 1) > upper
    {
      BlockAt(data, upper, m, m, i);
      EmptyIff(data, upper, m, i);
      MulMono(i, m - 1, BlockSize(upper, m) + 1);
    }
    BlockAt(data, upper, m, m, m - 1);
    EmptyIff(data, upper, m, m - 1);
  }

  /** A range of one number over two miners leaves the second without any. */
  lemma EmptyBlock(data: string)
    ensures Cuts(0, 2) && Blocks(data, 0, 2) == [Request(data, 0, 0), Request(data, 1, 0)]
    ensures Empty(Blocks(data, 0, 2)[1])
  {
    assert BlockSize(0, 2) == 0;
    BlockAt(data, 0, 2, 2, 0);
    BlockAt(data, 0, 2, 2, 1);
  }

  lemma Regroup(m: int, size: int)
    ensures (m - 1) * (size + 1) * m == (m * size + m) * (m - 1)
  {
  }

  lemma Expand(upper: int, m: int)
    ensures (upper + 2 * m - 1) * (m - 1) == (upper + 1) * m - m - upper + (m - 1) * (2 * m - 1)
  {
  }

  lemma LastStart(upper: int, m: int, size: int)
    requires m >= 1 && 0 <= size && m * size <= upper + m - 1 && upper >= (m - 1) * (2 * m - 1)
    ensures (m - 1) * (size + 1) <= upper
  {
    var a := (m - 1) * (size + 1);
    Expand(upper, m);
    if a > upper {
      MulMono(upper + 1, a, m);
      Regroup(m, size);
      MulMono(m * size + m, upper + 2 * m - 1, m - 1);
    }
  }

  /** So a range this large is enough. */
  lemma LargeEnough(upper: uint64, m: int)
    requires m >= 1 && upper >= (m - 1) * (2 * m - 1)
    ensures (m - 1) * (BlockSize(upper, m) + 1) <= upper
  {
    SizeBounds(upper, m);
    LastStart(upper, m, BlockSize(upper, m));
  }

  lemma Positions(i: int, k: int, stride: int)
    requires 1 <= stride
    ensures i * stride + stride <= k * stride || i == k || i * stride >= k * stride + stride
  {
    if i < k {
      assert k * stride == i * stride + (k - i) * stride;
      MulMono(1, k - i, stride);
    } else if i > k {
      assert i * stride == k * stride + (i - k) * stride;
      MulMono(1, i - k, stride);
    }
  }

  lemma EndWraps(lo: int, upper: int, stride: int, q: int)
    requires 0 <= lo < TWO64 && 1 <= stride <= TWO64 && 0 <= q <= upper < TWO64 < q + stride
    requires lo + stride <= q || lo == q || lo >= q + stride
    ensures var end := lo + stride - 1;
            var hi := if end < TWO64 then end else end - TWO64;
            !(lo <= q <= if hi > upper then upper else hi)
  {
  }

  /** When the last block inside the range ends at 2^64 or later, its own start is in no block. */
  lemma WrappedEndLoses(data: string, upper: uint64, m: int, i: nat, stride: int, q: int)
    requires m >= 1 && i < m && stride == BlockSize(upper, m) + 1 && q == upper / stride * stride
    requires (m - 1) * stride < TWO64 < q + stride
    ensures !In(Blocks(data, upper, m)[i], q)
  {
    var last := upper / stride;
    SizeBounds(upper, m);
    MulMono(i, m - 1, stride);
    DivIs(upper, stride, last);
    Positions(i, last, stride);
    BlockAt(data, upper, m, m, i);
    BlockBounds(data, upper, m, i);
    EndWraps(i * stride, upper, stride, q);
  }

  lemma Doubled(upper: uint64, m: int, size: int) returns (n: int)
    requires 1 <= m <= 0x8000_0000_0000_0000 && 0 <= size && m * size <= upper + m - 1
    requires (m - 1) * (size + 1) >= TWO64
    ensures n == (m - 1) * (size + 1) - TWO64 && m >= 2
    ensures 0 <= n <= upper && n + size + 1 < TWO64
  {
    assert (m - 1) * (size + 1) == m * size - size + m - 1;
    n := (m - 1) * (size + 1) - TWO64;
    if m >= 2 {
      MulMono(2, m, size);
    }
  }

  lemma InLast(data: string, upper: uint64, size: int, ct: nat, n: int)
    requires 0 <= size && size + 1 < TWO64 && n == ct * (size + 1) - TWO64
    requires 0 <= n <= upper && n + size + 1 < TWO64
    ensures In(Piece(data, upper, size, ct), n)
  {
    assert (size + 1) % TWO64 == size + 1;
    var p := ct * (size + 1);
    assert p % TWO64 == n;
  }

  lemma Floor(n: int, s: int) returns (h: int)
    requires 0 <= n && 1 <= s
    ensures 0 <= h && h * s <= n < h * s + s
  {
    h := n / s;
    DivIs(n, s, h);
  }

  lemma InHome(data: string, upper: uint64, size: int, n: int, h: int)
    requires 0 <= size && size + 1 < TWO64 && 0 <= n <= upper && n + size + 1 < TWO64
    requires 0 <= h && h * (size + 1) <= n < h * (size + 1) + size + 1
    ensures In(Piece(data, upper, size, h), n)
  {
    ProductWraps(h, size);
  }

  /** When the last block starts at 2^64 or later, its start wraps into a block that has it already. */
  lemma WrappedStartDoubles(data: string, upper: uint64, m: int)
    requires 1 <= m <= 0x8000_0000_0000_0000 && (m - 1) * (BlockSize(upper, m) + 1) >= TWO64
    ensures !Partitions(Blocks(data, upper, m), upper)
  {
    var bs, size := Blocks(data, upper, m), BlockSize(upper, m);
    SizeBounds(upper, m);
    var n := Doubled(upper, m, size);
    BlockAt(data, upper, m, m, m - 1);
    InLast(data, upper, size, m - 1, n);
    var h := Floor(n, size + 1);
    InHome(data, upper, size, n, h);
    if h >= m - 1 {
      MulMono(m - 1, h, size + 1);
      assert false;
    }
    BlockAt(data, upper, m, m, h);
    assert In(bs[m - 1], n) && In(bs[h], n);
  }

  /** Exactly when the 64-bit split is a partition of 0..upper (for any table a machine can hold). */
  lemma SplitPartitionsIff(data: string, upper: uint64, m: int)
    requires 1 <= m <= 0x8000_0000_0000_0000
    ensures Partitions(Blocks(data, upper, m), upper) <==> Cuts(upper, m)
  {
    var stride := BlockSize(upper, m) + 1;
    if Cuts(upper, m) {
      SplitPartitions(data, upper, m);
    } else if (m - 1) * stride >= TWO64 {
      WrappedStartDoubles(data, upper, m);
    } else {
      var bs, n := Blocks(data, upper, m), upper / stride * stride;
      DivIs(upper, stride, upper / stride);
      forall i | 0 <= i < m
        ensures !In(bs[i], n)
      {
        WrappedEndLoses(data, upper, m, i, stride, n);
      }
      assert upper / stride >= 0;
      assert 0 <= n <= upper && !InSome(bs, n);
    }
  }

  /** With the whole 64-bit range and two miners the second block wraps around and the top half is lost. */
  lemma OverflowLosesNumbers(data: string)
    ensures Blocks(data, MAX64, 2) == [Request(data, 0, 0x8000_0000_0000_0000), Request(data, 0x8000_0000_0000_0001, 1)]
    ensures !Partitions(Blocks(data, MAX64, 2), MAX64)
  {
    var bs := Blocks(data, MAX64, 2);
    assert BlockSize(MAX64, 2) == 0x8000_0000_0000_0000;
    BlockAt(data, MAX64, 2, 2, 0);
    BlockAt(data, MAX64, 2, 2, 1);
    assert !InSome(bs, MAX64);
  }
}
