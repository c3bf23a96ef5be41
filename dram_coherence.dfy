/** `Sum`, `LinearIndices` and `ClusteredIndices` of
    03_01_data_oriented_design/code/dram_coherence.cpp.

    `Sum` takes its index functor by value and calls it `count` times, so what
    it reads is determined by the sequence of indices the functor produces:
    the model passes that sequence as a function from call number to index.
    Each functor is a class whose `Next` (the C++ `operator()`) is proved to
    return the k-th element of its sequence on its k-th call. */
module DramCoherence {
  import opened Arith
  import opened DramBlockSize

  // ---------------------------------------------------------------------------
  // Sum

  /** values[indices(0)] + ... + values[indices(count - 1)] */
  function SumOf(values: seq<int>, indices: nat -> int, count: nat): int
    requires forall i :: 0 <= i < count ==> 0 <= indices(i) < |values|
  {
    if count == 0 then 0 else SumOf(values, indices, count - 1) + values[indices(count - 1)]
  }

  /** `Sum(values, indices, count)`: every index the functor produces must be
      inside the span. */
  method Sum(values: seq<int>, indices: nat -> int, count: nat) returns (sum: int)
    requires forall i :: 0 <= i < count ==> 0 <= indices(i) < |values|
    ensures sum == SumOf(values, indices, count)
  {
    sum := 0;
    var i := 0;
    while i < count
      invariant i <= count
      invariant sum == SumOf(values, indices, i)
    {
      var idx := indices(i);
      sum := sum + values[idx];
      i := i + 1;
    }
  }

  predicate AllOnes(values: seq<int>)
  {
    forall i :: 0 <= i < |values| ==> values[i] == 1
  }

  /** On data that is all ones, the sum counts the reads. */
  lemma {:induction false} SumOfOnes(values: seq<int>, indices: nat -> int, count: nat)
    requires AllOnes(values)
    requires forall i :: 0 <= i < count ==> 0 <= indices(i) < |values|
    ensures SumOf(values, indices, count) == count
  {
    if count > 0 {
      SumOfOnes(values, indices, count - 1);
    }
  }

  // ---------------------------------------------------------------------------
  // LinearIndices

  /** The index LinearIndices returns on its k-th call. */
  function LinearIndex(k: nat): int
  {
    8 * k
  }

  class LinearIndices {
    var idx: nat

    constructor ()
      ensures idx == 0
    {
      idx := 0;
    }

    /** `return 8 * idx++;` */
    method Next() returns (r: int)
      modifies this
      ensures r == LinearIndex(old(idx)) && idx == old(idx) + 1
    {
      r := 8 * idx;
      idx := idx + 1;
    }
  }

  /** Every eighth element, in order: the k-th call returns 0, 8, 16, ...  With
      count = size / 8 every read is inside the span, and on all-ones data the
      sum is size / 8, the result the benchmark checks. */
  lemma LinearSumOfOnes(values: seq<int>)
    requires AllOnes(values)
    ensures forall k :: 0 <= k < |values| / 8 ==> 0 <= LinearIndex(k) < |values|
    ensures SumOf(values, LinearIndex, |values| / 8) == |values| / 8
  {
    SumOfOnes(values, LinearIndex, |values| / 8);
  }

  // ---------------------------------------------------------------------------
  // ClusteredIndices

  /** The index ClusteredIndices returns on its k-th call: slot k % S of the
      offset table, inside cluster k / S. */
  function ClusteredIndex(table: seq<int>, S: nat, k: nat): int
    requires S > 0 && k % S < |table|
  {
    8 * ((k / S) * S + table[k % S])
  }

  /** Moving to the next cluster after S reads keeps the call counter's
      decomposition into cluster and slot. */
  lemma ClusterStep(calls: nat, c: nat, o: nat, S: nat)
    requires S > 0 && o <= S && calls == c * S + o
    ensures o == S ==> calls / S == c + 1 && calls % S == 0 && calls + 1 == (c + 1) * S + 1
    ensures o < S ==> calls / S == c && calls % S == o && calls + 1 == c * S + (o + 1)
  {
    if o == S {
      DivModUnique(calls, S, c + 1, 0);
    } else {
      DivModUnique(calls, S, c, o);
    }
  }

  class ClusteredIndices {
    const clusterSize: nat
    var offsetIdx: nat
    var clusterIdx: nat
    const offsetTable: seq<int>
    /** The number of indices returned so far. */
    ghost var calls: nat

    ghost predicate Valid()
      reads this
    {
      && clusterSize > 0
      && offsetIdx <= clusterSize
      && calls == clusterIdx * clusterSize + offsetIdx
    }

    /** The table slot the next call reads. */
    function NextSlot(): nat
      reads this
    {
      if offsetIdx == clusterSize then 0 else offsetIdx
    }

    /** The constructor as written: `offsetTable(clusterSize - 1)`, filled with
        a shuffle of 0, ..., clusterSize - 2 (order is that shuffle).  The random
        cluster distribution is never used and is not modelled. */
    constructor AsWritten(rangeSize: nat, clusterSize: nat, order: seq<int>)
      requires clusterSize > 0 && IsPermutation(order, clusterSize - 1)
      ensures Valid() && calls == 0 && offsetIdx == 0 && clusterIdx == 0
      ensures this.clusterSize == clusterSize && offsetTable == Truncate16(order)
      ensures |offsetTable| == clusterSize - 1
    {
      this.clusterSize := clusterSize;
      offsetTable := Truncate16(order);
      offsetIdx := 0;
      clusterIdx := 0;
      calls := 0;
    }

    /** The constructor with the table the call operator needs: one slot per
        element of a cluster, filled with a shuffle of 0, ..., clusterSize - 1. */
    constructor (rangeSize: nat, clusterSize: nat, order: seq<int>)
      requires clusterSize > 0 && IsPermutation(order, clusterSize)
      ensures Valid() && calls == 0 && offsetIdx == 0 && clusterIdx == 0
      ensures this.clusterSize == clusterSize && offsetTable == Truncate16(order)
      ensures |offsetTable| == clusterSize
    {
      this.clusterSize := clusterSize;
      offsetTable := Truncate16(order);
      offsetIdx := 0;
      clusterIdx := 0;
      calls := 0;
    }

    /** `operator()`: after clusterSize reads move to the next cluster, then read
        the offset of the current slot.  The read must be inside the table. */
    method Next() returns (r: int)
      requires Valid() && NextSlot() < |offsetTable|
      modifies this
      ensures Valid() && calls == old(calls) + 1
      ensures old(calls) % clusterSize == old(NextSlot())
      ensures old(calls) % clusterSize < |offsetTable| && r == ClusteredIndex(offsetTable, clusterSize, old(calls))
      ensures old(offsetIdx) == clusterSize ==> clusterIdx == old(clusterIdx) + 1 && offsetIdx == 1
      ensures old(offsetIdx) < clusterSize ==> clusterIdx == old(clusterIdx) && offsetIdx == old(offsetIdx) + 1
    {
      ghost var k := calls;
      ClusterStep(k, clusterIdx, offsetIdx, clusterSize);
      if offsetIdx == clusterSize {
        offsetIdx := 0;
        clusterIdx := clusterIdx + 1;
      }
      assert k / clusterSize == clusterIdx && k % clusterSize == offsetIdx;
      var offset := offsetTable[offsetIdx];
      offsetIdx := offsetIdx + 1;
      r := 8 * (clusterIdx * clusterSize + offset);
      assert r == ClusteredIndex(offsetTable, clusterSize, k);
      calls := calls + 1;
    }
  }

  /** As written, the call operator counts clusterSize reads per cluster but the
      table has one slot fewer: whenever clusterSize - 1 calls of a cluster have
      been made, the next call reads one past the end of the table. */
  lemma AsWrittenReadsPastTable(g: ClusteredIndices)
    requires g.Valid() && |g.offsetTable| == g.clusterSize - 1
    requires g.calls % g.clusterSize == g.clusterSize - 1
    ensures g.NextSlot() == |g.offsetTable|
  {
    if g.offsetIdx == g.clusterSize {
      DivModUnique(g.calls, g.clusterSize, g.clusterIdx + 1, 0);
    } else {
      DivModUnique(g.calls, g.clusterSize, g.clusterIdx, g.offsetIdx);
    }
  }

  /** The benchmark's `ClusteredIndices{ values.size(), 8 }` as written: the first
      seven calls read slots 0, ..., 6 of the seven-slot table, and the eighth
      call, which `Sum` makes since count = size / 8 >= 8, would read slot 7. */
  method AsWrittenEighthCallOverruns(order: seq<int>) returns (slot: nat, tableSize: nat)
    requires IsPermutation(order, 7)
    ensures slot == 7 && tableSize == 7
  {
    var g := new ClusteredIndices.AsWritten(0x1000_0000, 8, order);
    var i := 0;
    while i < 7
      invariant 0 <= i <= 7
      invariant g.Valid() && g.calls == i && g.offsetIdx == i && g.clusterIdx == 0
      invariant g.clusterSize == 8 && |g.offsetTable| == 7
    {
      var _ := g.Next();
      i := i + 1;
    }
    slot, tableSize := g.NextSlot(), |g.offsetTable|;
  }

  /** The element numbers (indices divided by 8) of the first count calls. */
  function ClusteredVisits(table: seq<int>, S: nat, count: nat): (r: seq<int>)
    requires S > 0 && |table| == S
    ensures |r| == count
    ensures forall k :: 0 <= k < count ==> 8 * r[k] == ClusteredIndex(table, S, k)
  {
    seq(count, k requires 0 <= k < count => (k / S) * S + table[k % S])
  }

  /** With a full table and count a multiple of the cluster size, the first count
      calls visit every element number in [0, count) exactly once: the clustered
      run is the offset grid of `OffsetGenerator` with clusters as columns taken
      in order and the table as the row shuffle. */
  lemma ClusteredVisitsEachOnce(table: seq<int>, S: nat, count: nat)
    requires S > 0 && IsPermutation(table, S) && count % S == 0
    ensures IsPermutation(ClusteredVisits(table, S, count), count)
  {
    var visits := ClusteredVisits(table, S, count);
    if count > 0 {
      var C := count / S;
      DivModUnique(count, S, C, 0);
      assert C > 0;
      IdentityIsPermutation(C);
      FirstRoundIsPermutation(table, Identity(C));
      var grid := FirstRound(table, Identity(C));
      forall k | 0 <= k < count
        ensures visits[k] == grid[k]
      {
        var column, row := OffsetInFirstRound(table, Identity(C), k);
      }
      assert visits == grid;
    }
  }

  /** The same for the table the full constructor fills from the shuffle order:
      up to 65536 slots the `uint16_t` table is the order itself. */
  lemma ConstructedVisitsEachOnce(order: seq<int>, S: nat, count: nat)
    requires 0 < S <= 0x1_0000 && IsPermutation(order, S) && count % S == 0
    ensures IsPermutation(ClusteredVisits(Truncate16(order), S, count), count)
  {
    RowShuffleFitsUpTo65536(order, S);
    ClusteredVisitsEachOnce(order, S, count);
  }

  /** `Sum(values, ClusteredIndices{ values.size(), S }, values.size() / 8)` with
      the full table: on all-ones data whose element count size / 8 is a multiple
      of S, every read is inside the span and the result is size / 8. */
  lemma ClusteredSumOfOnes(values: seq<int>, table: seq<int>, S: nat)
    requires AllOnes(values)
    requires S > 0 && IsPermutation(table, S) && (|values| / 8) % S == 0
    ensures forall k :: 0 <= k < |values| / 8 ==> 0 <= ClusteredIndex(table, S, k) < |values|
    ensures SumOf(values, (k: nat) => ClusteredIndex(table, S, k), |values| / 8) == |values| / 8
  {
    var count := |values| / 8;
    ClusteredVisitsEachOnce(table, S, count);
    var visits := ClusteredVisits(table, S, count);
    forall k | 0 <= k < count
      ensures 0 <= ClusteredIndex(table, S, k) < |values|
    {
      assert 0 <= visits[k] < count;
    }
    SumOfOnes(values, (k: nat) => ClusteredIndex(table, S, k), count);
  }
}
