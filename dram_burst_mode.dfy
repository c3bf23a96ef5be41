/** `sum_all` and `sum_every_8th` of
    03_01_data_oriented_design/code/dram_burst_mode.cpp.

    Both loops walk the values in blocks of 8 up to the bound
    `values.size() & ~7u`.  `~7u` is the 32-bit `unsigned int` 0xFFFFFFF8, which
    is zero-extended to `size_t` before the `&`, so the bound keeps only bits 3
    to 31 of the size: (size mod 2^32) rounded down to a multiple of 8.  The
    `int64_t` sums are modelled as unbounded integers. */
module DramBurstMode {

  const TwoTo32: int := 0x1_0000_0000
  const TwoTo64: int := 0x1_0000_0000_0000_0000

  /** `values.size() & ~7u` */
  function MaskedBound(size: nat): nat
  {
    (size % TwoTo32) / 8 * 8
  }

  /** `values.size() & ~size_t(7)`: the size rounded down to a multiple of 8. */
  function WholeBound(size: nat): nat
  {
    size / 8 * 8
  }

  /** values[lo] + ... + values[hi - 1], added left to right. */
  function SumRange(values: seq<int>, lo: nat, hi: nat): int
    requires lo <= hi <= |values|
    decreases hi - lo
  {
    if lo == hi then 0 else SumRange(values, lo, hi - 1) + values[hi - 1]
  }

  /** values[0] + values[8] + ... + values[8 * (blocks - 1)] */
  function SumOfFirsts(values: seq<int>, blocks: nat): int
    requires 8 * blocks <= |values|
  {
    if blocks == 0 then 0 else SumOfFirsts(values, blocks - 1) + values[8 * (blocks - 1)]
  }

  /** The pairwise bracketing of one block of 8. */
  function PairwiseBlock(values: seq<int>, idx: nat): int
    requires idx + 8 <= |values|
  {
    ((values[idx + 0] + values[idx + 1])
      + (values[idx + 2] + values[idx + 3]))
    + ((values[idx + 4] + values[idx + 5])
      + (values[idx + 6] + values[idx + 7]))
  }

  /** Integer addition is associative, so the pairwise bracketing of a block
      adds up to the same value as the left-to-right sum. */
  lemma PairwiseIsSequential(values: seq<int>, idx: nat)
    requires idx + 8 <= |values|
    ensures PairwiseBlock(values, idx) == SumRange(values, idx, idx + 8)
  {
    assert SumRange(values, idx, idx + 1) == values[idx];
    assert SumRange(values, idx, idx + 2) == SumRange(values, idx, idx + 1) + values[idx + 1];
    assert SumRange(values, idx, idx + 3) == SumRange(values, idx, idx + 2) + values[idx + 2];
    assert SumRange(values, idx, idx + 4) == SumRange(values, idx, idx + 3) + values[idx + 3];
    assert SumRange(values, idx, idx + 5) == SumRange(values, idx, idx + 4) + values[idx + 4];
    assert SumRange(values, idx, idx + 6) == SumRange(values, idx, idx + 5) + values[idx + 5];
    assert SumRange(values, idx, idx + 7) == SumRange(values, idx, idx + 6) + values[idx + 6];
  }

  /** A left-to-right sum splits at any point in between. */
  lemma {:induction false} SumRangeSplit(values: seq<int>, lo: nat, mid: nat, hi: nat)
    requires lo <= mid <= hi <= |values|
    ensures SumRange(values, lo, hi) == SumRange(values, lo, mid) + SumRange(values, mid, hi)
    decreases hi - mid
  {
    if mid < hi {
      SumRangeSplit(values, lo, mid, hi - 1);
    }
  }

  /** The loop of sum_all up to a given bound. */
  method SumBlocks(values: seq<int>, bound: nat) returns (sum: int)
    requires bound % 8 == 0 && bound <= |values|
    ensures sum == SumRange(values, 0, bound)
  {
    sum := 0;
    var idx := 0;
    while idx < bound
      invariant idx % 8 == 0 && idx <= bound
      invariant sum == SumRange(values, 0, idx)
    {
      PairwiseIsSequential(values, idx);
      SumRangeSplit(values, 0, idx, idx + 8);
      sum := sum + ((values[idx + 0] + values[idx + 1])
                    + (values[idx + 2] + values[idx + 3]))
                 + ((values[idx + 4] + values[idx + 5])
                    + (values[idx + 6] + values[idx + 7]));
      idx := idx + 8;
    }
  }

  /** The loop of sum_every_8th up to a given bound. */
  method SumFirstsOfBlocks(values: seq<int>, bound: nat) returns (sum: int)
    requires bound % 8 == 0 && bound <= |values|
    ensures sum == SumOfFirsts(values, bound / 8)
  {
    sum := 0;
    var idx := 0;
    while idx < bound
      invariant idx % 8 == 0 && idx <= bound
      invariant sum == SumOfFirsts(values, idx / 8)
    {
      sum := sum + values[idx + 0];
      idx := idx + 8;
    }
  }

  /** `sum_all` as written: the sum of values[0 .. size & ~7u). */
  method SumAll(values: seq<int>) returns (sum: int)
    requires |values| < TwoTo64
    ensures sum == SumRange(values, 0, MaskedBound(|values|))
  {
    sum := SumBlocks(values, MaskedBound(|values|));
  }

  /** `sum_every_8th` as written: the sum of values[8k] for 8k < size & ~7u. */
  method SumEvery8th(values: seq<int>) returns (sum: int)
    requires |values| < TwoTo64
    ensures sum == SumOfFirsts(values, MaskedBound(|values|) / 8)
  {
    sum := SumFirstsOfBlocks(values, MaskedBound(|values|));
  }

  /** sum_all with the mask taken at the width of `size_t`. */
  method SumAllWhole(values: seq<int>) returns (sum: int)
    requires |values| < TwoTo64
    ensures sum == SumRange(values, 0, WholeBound(|values|))
  {
    sum := SumBlocks(values, WholeBound(|values|));
  }

  /** sum_every_8th with the mask taken at the width of `size_t`. */
  method SumEvery8thWhole(values: seq<int>) returns (sum: int)
    requires |values| < TwoTo64
    ensures sum == SumOfFirsts(values, WholeBound(|values|) / 8)
  {
    sum := SumFirstsOfBlocks(values, WholeBound(|values|));
  }

  /** The 32-bit mask rounds the size down to whole blocks exactly when the size
      is below 2^32; from 2^32 elements on it drops everything above bit 31. */
  lemma MaskedBoundIsWholeBelow4G(size: nat)
    ensures MaskedBound(size) <= WholeBound(size) <= size
    ensures MaskedBound(size) == WholeBound(size) <==> size < TwoTo32
  {
    if size >= TwoTo32 {
      assert size / 8 >= TwoTo32 / 8;
    }
  }

  predicate AllOnes(values: seq<int>)
  {
    forall i :: 0 <= i < |values| ==> values[i] == 1
  }

  lemma {:induction false} SumRangeOfOnes(values: seq<int>, lo: nat, hi: nat)
    requires AllOnes(values) && lo <= hi <= |values|
    ensures SumRange(values, lo, hi) == hi - lo
    decreases hi - lo
  {
    if lo < hi {
      SumRangeOfOnes(values, lo, hi - 1);
    }
  }

  lemma {:induction false} SumOfFirstsOfOnes(values: seq<int>, blocks: nat)
    requires AllOnes(values) && 8 * blocks <= |values|
    ensures SumOfFirsts(values, blocks) == blocks
  {
    if blocks > 0 {
      SumOfFirstsOfOnes(values, blocks - 1);
    }
  }

  /** The benchmark's check: on all-ones data whose length n is a multiple of 8
      (and below 2^32, as the 2^28 values of the benchmark are), sum_all returns
      n and sum_every_8th returns n / 8. */
  lemma SumsOfOnes(values: seq<int>)
    requires AllOnes(values) && |values| % 8 == 0 && |values| < TwoTo32
    ensures SumRange(values, 0, MaskedBound(|values|)) == |values|
    ensures SumOfFirsts(values, MaskedBound(|values|) / 8) == |values| / 8
  {
    SumRangeOfOnes(values, 0, |values|);
    SumOfFirstsOfOnes(values, |values| / 8);
  }

  /** With 2^32 all-ones values, sum_all as written reads nothing and returns 0,
      where the whole-width mask gives 2^32. */
  lemma SumAllMissesEverythingAt4G(values: seq<int>)
    requires AllOnes(values) && |values| == TwoTo32
    ensures SumRange(values, 0, MaskedBound(|values|)) == 0
    ensures SumRange(values, 0, WholeBound(|values|)) == TwoTo32
  {
    SumRangeOfOnes(values, 0, |values|);
  }

  /** With the whole-width mask the benchmark's check holds for every length that
      is a multiple of 8. */
  lemma WholeSumsOfOnes(values: seq<int>)
    requires AllOnes(values) && |values| % 8 == 0
    ensures SumRange(values, 0, WholeBound(|values|)) == |values|
    ensures SumOfFirsts(values, WholeBound(|values|) / 8) == |values| / 8
  {
    SumRangeOfOnes(values, 0, |values|);
    SumOfFirstsOfOnes(values, |values| / 8);
  }
}
