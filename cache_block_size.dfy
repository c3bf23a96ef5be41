/** `GetBlockSizes` of 03_01_data_oriented_design/code/cache_block_size.cpp: the
    block sizes the cache benchmark measures.  From 128 bytes up to maxSize, each
    power-of-two multiple s of 128 is listed, followed (unless it is maxSize) by
    the three intermediate sizes 5s/4, 6s/4 and 7s/4.

    Sizes are `size_t`, so the products s * 5, s * 6 and s * 7 wrap modulo 2^64
    before the division; the wrap is written out. */
module CacheBlockSize {

  const TwoTo61: int := 0x2000_0000_0000_0000
  const TwoTo63: int := 0x8000_0000_0000_0000
  const TwoTo64: int := 0x1_0000_0000_0000_0000

  /** Unsigned 64-bit wrap-around. */
  function Wrap64(x: nat): nat
  {
    x % TwoTo64
  }

  /** The sizes one round of the loop pushes for the power s. */
  function Round(s: nat, maxSize: nat): seq<nat>
  {
    [s] + (if s != maxSize then [Wrap64(s * 5) / 4, Wrap64(s * 6) / 4, Wrap64(s * 7) / 4] else [])
  }

  /** The sizes the loop pushes from the power s on. */
  function BlockSizesFrom(s: nat, maxSize: nat): seq<nat>
    requires s > 0
    decreases maxSize + 1 - s
  {
    if s > maxSize then [] else Round(s, maxSize) + BlockSizesFrom(s * 2, maxSize)
  }

  /** `GetBlockSizes(maxSize)`.  From maxSize = 2^63 on, s reaches 2^63 and
      `s *= 2` wraps it to 0, after which `s <= maxSize` holds forever: the
      loop only ends for maxSize < 2^63. */
  method GetBlockSizes(maxSize: nat) returns (blockSizes: seq<nat>)
    requires maxSize < TwoTo63
    ensures blockSizes == BlockSizesFrom(128, maxSize)
  {
    blockSizes := [];
    var s := 128;
    while s <= maxSize
      invariant s > 0
      invariant blockSizes + BlockSizesFrom(s, maxSize) == BlockSizesFrom(128, maxSize)
      decreases maxSize + 1 - s
    {
      ghost var before := blockSizes;
      assert BlockSizesFrom(s, maxSize) == Round(s, maxSize) + BlockSizesFrom(s * 2, maxSize);
      blockSizes := blockSizes + [s];
      if s != maxSize {
        blockSizes := blockSizes + [(s * 5) % TwoTo64 / 4];
        blockSizes := blockSizes + [(s * 6) % TwoTo64 / 4];
        blockSizes := blockSizes + [(s * 7) % TwoTo64 / 4];
        assert blockSizes == before + Round(s, maxSize);
      } else {
        assert blockSizes == before + Round(s, maxSize);
      }
      AppendRound(before, Round(s, maxSize), BlockSizesFrom(s * 2, maxSize));
      s := s * 2;
    }
  }

  lemma AppendRound(before: seq<nat>, round: seq<nat>, rest: seq<nat>)
    ensures before + (round + rest) == (before + round) + rest
  {
  }

  function Pow2(k: nat): (r: nat)
    ensures r >= 1
  {
    if k == 0 then 1 else 2 * Pow2(k - 1)
  }

  /** The list is empty exactly when maxSize < 128, and otherwise starts at 128. */
  lemma EmptyBelow128(maxSize: nat)
    ensures BlockSizesFrom(128, maxSize) == [] <==> maxSize < 128
    ensures maxSize >= 128 ==> BlockSizesFrom(128, maxSize)[0] == 128
  {
  }

  /** Every power-of-two multiple s * 2^k of the start that is at most maxSize
      is listed. */
  lemma {:induction false} PowersListed(s: nat, k: nat, maxSize: nat)
    requires s > 0 && s * Pow2(k) <= maxSize
    ensures s * Pow2(k) in BlockSizesFrom(s, maxSize)
    decreases k
  {
    if k > 0 {
      assert s * Pow2(k) == (s * 2) * Pow2(k - 1);
      assert s <= s * Pow2(k);
      PowersListed(s * 2, k - 1, maxSize);
    }
  }

  /** Hence every 128 * 2^k <= maxSize is a block size. */
  lemma EveryPowerListed(k: nat, maxSize: nat)
    requires 128 * Pow2(k) <= maxSize
    ensures 128 * Pow2(k) in BlockSizesFrom(128, maxSize)
  {
    PowersListed(128, k, maxSize);
  }

  predicate StrictlyIncreasing(xs: seq<nat>)
  {
    forall i, j :: 0 <= i < j < |xs| ==> xs[i] < xs[j]
  }

  /** Below 2^61 none of the products wraps, every size is at least the power it
      starts from, and the sizes strictly increase: 5s/4, 6s/4 and 7s/4 lie
      strictly between s and 2s. */
  lemma {:induction false} IncreasingFrom(s: nat, maxSize: nat)
    requires s >= 4 && s % 4 == 0 && maxSize < TwoTo61
    ensures forall x :: x in BlockSizesFrom(s, maxSize) ==> x >= s
    ensures StrictlyIncreasing(BlockSizesFrom(s, maxSize))
    decreases maxSize + 1 - s
  {
    if s <= maxSize {
      IncreasingFrom(s * 2, maxSize);
      RoundBetween(s, maxSize);
      ConcatIncreasing(Round(s, maxSize), BlockSizesFrom(s * 2, maxSize), s * 2);
    }
  }

  /** Without wrap-around one round lies in [s, 2s), in increasing order. */
  lemma RoundBetween(s: nat, maxSize: nat)
    requires s >= 4 && s % 4 == 0 && s < TwoTo61
    ensures StrictlyIncreasing(Round(s, maxSize))
    ensures forall x :: x in Round(s, maxSize) ==> s <= x < s * 2
  {
    assert Wrap64(s * 5) == s * 5 && Wrap64(s * 6) == s * 6 && Wrap64(s * 7) == s * 7;
  }

  lemma ConcatIncreasing(xs: seq<nat>, ys: seq<nat>, bound: nat)
    requires StrictlyIncreasing(xs) && StrictlyIncreasing(ys)
    requires forall x :: x in xs ==> x < bound
    requires forall y :: y in ys ==> y >= bound
    ensures StrictlyIncreasing(xs + ys)
  {
    var zs := xs + ys;
    forall i, j | 0 <= i < j < |zs|
      ensures zs[i] < zs[j]
    {
      if j < |xs| {
        assert zs[i] == xs[i] && zs[j] == xs[j];
      } else if i < |xs| {
        assert zs[i] == xs[i] && xs[i] in xs;
        assert zs[j] == ys[j - |xs|] && ys[j - |xs|] in ys;
      } else {
        assert zs[i] == ys[i - |xs|] && zs[j] == ys[j - |xs|];
      }
    }
  }

  /** GetBlockSizes(maxSize) is strictly increasing for every maxSize < 2^61. */
  lemma BlockSizesIncrease(maxSize: nat)
    requires maxSize < TwoTo61
    ensures StrictlyIncreasing(BlockSizesFrom(128, maxSize))
  {
    IncreasingFrom(128, maxSize);
  }

  /** When maxSize = s * 2^k is itself reached, the list has four entries per
      power below it plus maxSize itself, which is the last entry. */
  lemma {:induction false} LengthAtPowerFrom(s: nat, k: nat)
    requires s > 0
    ensures |BlockSizesFrom(s, s * Pow2(k))| == 4 * k + 1
    ensures BlockSizesFrom(s, s * Pow2(k))[4 * k] == s * Pow2(k)
    decreases k
  {
    var m := s * Pow2(k);
    if k == 0 {
      assert BlockSizesFrom(s, m) == [s] + BlockSizesFrom(s * 2, m);
    } else {
      assert m == (s * 2) * Pow2(k - 1);
      assert s < m;
      LengthAtPowerFrom(s * 2, k - 1);
    }
  }

  /** For maxSize = 128 * 2^k: 4k + 1 sizes, ending with maxSize. */
  lemma LengthAtPower(k: nat)
    ensures |BlockSizesFrom(128, 128 * Pow2(k))| == 4 * k + 1
    ensures BlockSizesFrom(128, 128 * Pow2(k))[4 * k] == 128 * Pow2(k)
  {
    LengthAtPowerFrom(128, k);
  }

  /** The benchmark's maxBlockSize = 512 MiB = 128 * 2^22: 89 block sizes, the
      last of them 512 MiB. */
  lemma BenchmarkBlockSizes()
    ensures |BlockSizesFrom(128, 512 * 1048576)| == 89
    ensures BlockSizesFrom(128, 512 * 1048576)[88] == 512 * 1048576
  {
    Pow2Of22();
    LengthAtPower(22);
  }

  lemma Pow2Of22()
    ensures Pow2(22) == 4194304
  {
    assert Pow2(4) == 16;
    assert Pow2(8) == 256;
    assert Pow2(12) == 4096;
    assert Pow2(16) == 65536;
    assert Pow2(20) == 1048576;
  }

  /** When maxSize is not of that form the intermediate sizes after the last
      power are still listed and exceed maxSize: GetBlockSizes(150) is
      128, 160, 192, 224. */
  lemma OvershootsBetweenPowers()
    ensures BlockSizesFrom(128, 150) == [128, 160, 192, 224]
  {
    assert BlockSizesFrom(256, 150) == [];
  }
}
