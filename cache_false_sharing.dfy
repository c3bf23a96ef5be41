/** `partition_values` and `do_sum` of
    03_01_data_oriented_design/code/cache_false_sharing.cpp.

    The benchmark splits the values into one partition per thread and lets each
    thread add its partition into an `int64_t` through a pointer.  Threads are
    not modelled: `NoFalseSharingInSequence` runs the per-thread work one thread
    after another, which gives the same sums because every thread writes only
    its own slot.  `int64_t` arithmetic is modelled as unbounded. */
module CacheFalseSharing {
  import opened FalseSharing
  import opened Arith

  /** values[0] + values[1] + ..., added left to right. */
  function SeqSum(xs: seq<int>): int
  {
    if xs == [] then 0 else SeqSum(xs[..|xs| - 1]) + xs[|xs| - 1]
  }

  lemma {:induction false} SeqSumAppend(xs: seq<int>, ys: seq<int>)
    ensures SeqSum(xs + ys) == SeqSum(xs) + SeqSum(ys)
    decreases |ys|
  {
    if ys != [] {
      var zs := xs + ys;
      assert zs[..|zs| - 1] == xs + ys[..|ys| - 1] && zs[|zs| - 1] == ys[|ys| - 1];
      SeqSumAppend(xs, ys[..|ys| - 1]);
    } else {
      assert xs + ys == xs;
    }
  }

  /** `partition_values(values, nthreads)`: nthreads partitions, partition i
      spanning [partition_size * i, min(size, partition_size * (i + 1))).  As in
      get_my_values, every partition must start inside the data, or `last -
      first` underflows. */
  method PartitionValues(values: seq<int>, nthreads: nat) returns (partitions: seq<Span>)
    requires nthreads > 0 && Base(|values|, nthreads) * (nthreads - 1) <= |values|
    ensures |partitions| == nthreads && Fits(values, partitions)
    ensures AreThreadSlices(values, partitions, nthreads)
  {
    partitions := [];
    var partitionSize := (|values| + nthreads - 1) / nthreads;
    var threadIdx := 0;
    while threadIdx < nthreads
      invariant threadIdx <= nthreads && |partitions| == threadIdx
      invariant forall i :: 0 <= i < threadIdx ==>
        Base(|values|, nthreads) * i <= |values| && partitions[i] == GetMyValues(values, i, nthreads)
    {
      Monotone(partitionSize, threadIdx, nthreads - 1);
      var first := partitionSize * threadIdx;
      var last := Min(|values|, partitionSize * (threadIdx + 1));
      assert Span(first, last - first) == GetMyValues(values, threadIdx, nthreads);
      partitions := partitions + [Span(first, last - first)];
      threadIdx := threadIdx + 1;
    }
  }

  /** Partition i is get_my_values(values, i, nthreads), for every thread i. */
  predicate AreThreadSlices(values: seq<int>, parts: seq<Span>, nthreads: nat)
  {
    && nthreads > 0
    && |parts| == nthreads
    && forall i :: 0 <= i < nthreads ==>
      Base(|values|, nthreads) * i <= |values| && parts[i] == GetMyValues(values, i, nthreads)
  }

  /** Every span shows elements of the values. */
  predicate Fits(values: seq<int>, parts: seq<Span>)
  {
    forall i :: 0 <= i < |parts| ==> parts[i].first + parts[i].count <= |values|
  }

  /** The partitions of a run of partition_values, concatenated. */
  function Joined(values: seq<int>, parts: seq<Span>): seq<int>
    requires Fits(values, parts)
  {
    if parts == [] then [] else Joined(values, parts[..|parts| - 1]) + View(values, parts[|parts| - 1])
  }

  /** The sums of the partitions, one per thread. */
  function PartSums(values: seq<int>, parts: seq<Span>): (r: seq<int>)
    requires Fits(values, parts)
    ensures |r| == |parts|
    ensures forall i :: 0 <= i < |parts| ==> r[i] == SeqSum(View(values, parts[i]))
  {
    seq(|parts|, i requires 0 <= i < |parts| => SeqSum(View(values, parts[i])))
  }

  /** The partitions are exactly the values, in order. */
  lemma {:induction false} PartitionsAreSlices(values: seq<int>, parts: seq<Span>, k: nat, nthreads: nat)
    requires nthreads > 0 && Base(|values|, nthreads) * (nthreads - 1) <= |values|
    requires |parts| == nthreads && k <= nthreads
    requires forall i :: 0 <= i < nthreads ==>
      Base(|values|, nthreads) * i <= |values| && parts[i] == GetMyValues(values, i, nthreads)
    requires Fits(values, parts)
    ensures Fits(values, parts[..k]) && Joined(values, parts[..k]) == Slices(values, k, nthreads)
  {
    if k > 0 {
      PartitionsAreSlices(values, parts, k - 1, nthreads);
      assert parts[..k][..k - 1] == parts[..k - 1];
    }
  }

  lemma PartitionsCoverValues(values: seq<int>, parts: seq<Span>, nthreads: nat)
    requires nthreads > 0 && Base(|values|, nthreads) * (nthreads - 1) <= |values|
    requires |parts| == nthreads
    requires forall i :: 0 <= i < nthreads ==>
      Base(|values|, nthreads) * i <= |values| && parts[i] == GetMyValues(values, i, nthreads)
    requires Fits(values, parts)
    ensures Joined(values, parts) == values
  {
    PartitionsAreSlices(values, parts, nthreads, nthreads);
    assert parts[..nthreads] == parts;
    SlicesCover(values, nthreads, nthreads);
  }

  /** The partition sums add up to the sum of the concatenated partitions. */
  lemma {:induction false} PartSumsAddUp(values: seq<int>, parts: seq<Span>)
    requires Fits(values, parts)
    ensures SeqSum(PartSums(values, parts)) == SeqSum(Joined(values, parts))
    decreases |parts|
  {
    if parts != [] {
      var init := parts[..|parts| - 1];
      PartSumsAddUp(values, init);
      assert PartSums(values, parts)[..|parts| - 1] == PartSums(values, init);
      SeqSumAppend(Joined(values, init), View(values, parts[|parts| - 1]));
    }
  }

  /** `do_sum(out, values)`: reads and rewrites `*out` once per item, leaving it
      at its initial value plus the sum of the items.  The pointer `out` is
      modelled as an array and a position in it: an element of `partition_sums`,
      or a one-element array for a thread's local. */
  method DoSum(out: array<int>, at: nat, values: seq<int>)
    requires at < out.Length
    modifies out
    ensures out[at] == old(out[at]) + SeqSum(values)
    ensures forall j :: 0 <= j < out.Length && j != at ==> out[j] == old(out[j])
  {
    var i := 0;
    while i < |values|
      invariant i <= |values|
      invariant out[at] == old(out[at]) + SeqSum(values[..i])
      invariant forall j :: 0 <= j < out.Length && j != at ==> out[j] == old(out[j])
    {
      var current := out[at];
      out[at] := current + values[i];
      assert values[..i + 1][..i] == values[..i];
      i := i + 1;
    }
    assert values[..|values|] == values;
  }

  /** `std::reduce(partition_sums, 0LL)`, added left to right. */
  method Reduce(partitionSums: array<int>) returns (result: int)
    ensures result == SeqSum(partitionSums[..])
  {
    result := 0;
    for i := 0 to partitionSums.Length
      invariant result == SeqSum(partitionSums[..i])
    {
      assert partitionSums[..i + 1][..i] == partitionSums[..i];
      result := result + partitionSums[i];
    }
    assert partitionSums[..partitionSums.Length] == partitionSums[..];
  }

  /** Once every slot holds the sum of its partition, the reduction is the sum
      of all values. */
  lemma SlotsAddUp(values: seq<int>, partitions: seq<Span>, sums: seq<int>, nthreads: nat)
    requires nthreads > 0 && Base(|values|, nthreads) * (nthreads - 1) <= |values|
    requires |partitions| == nthreads && Fits(values, partitions)
    requires AreThreadSlices(values, partitions, nthreads)
    requires |sums| == nthreads
    requires forall i :: 0 <= i < nthreads ==> sums[i] == SeqSum(View(values, partitions[i]))
    ensures SeqSum(sums) == SeqSum(values)
  {
    assert sums == PartSums(values, partitions);
    PartSumsAddUp(values, partitions);
    PartitionsCoverValues(values, partitions, nthreads);
  }

  /** `false_sharing(values, nthreads)` with its threads run one after another:
      thread t adds its partition straight into slot t of `partition_sums`, and
      the slots are reduced.  The result is the sum of all values. */
  method FalseSharingInSequence(values: seq<int>, nthreads: nat) returns (result: int)
    requires nthreads > 0 && Base(|values|, nthreads) * (nthreads - 1) <= |values|
    ensures result == SeqSum(values)
  {
    var partitions := PartitionValues(values, nthreads);
    var partitionSums := new int[nthreads](_ => 0);
    for threadIdx := 0 to nthreads
      invariant forall i :: 0 <= i < threadIdx ==> partitionSums[i] == SeqSum(View(values, partitions[i]))
      invariant forall i :: threadIdx <= i < nthreads ==> partitionSums[i] == 0
    {
      DoSum(partitionSums, threadIdx, View(values, partitions[threadIdx]));
    }
    ghost var sums := partitionSums[..];
    assert forall i :: 0 <= i < nthreads ==> sums[i] == SeqSum(View(values, partitions[i]));
    SlotsAddUp(values, partitions, sums, nthreads);
    result := Reduce(partitionSums);
  }

  /** The body of a no_false_sharing thread before its store: `int64_t local
      = 0; do_sum(&local, values);` leaves the sum of the values in `local`. */
  method LocalSum(values: seq<int>) returns (sum: int)
    ensures sum == SeqSum(values)
  {
    var local := new int[1](_ => 0);
    DoSum(local, 0, values);
    sum := local[0];
  }

  /** `no_false_sharing(values, nthreads)` with its threads run one after
      another: each thread sums its partition into a local and stores it in its
      slot, and the slots are reduced.  The result is the sum of all values. */
  method NoFalseSharingInSequence(values: seq<int>, nthreads: nat) returns (result: int)
    requires nthreads > 0 && Base(|values|, nthreads) * (nthreads - 1) <= |values|
    ensures result == SeqSum(values)
  {
    var partitions := PartitionValues(values, nthreads);
    var partitionSums := new int[nthreads](_ => 0);
    for threadIdx := 0 to nthreads
      invariant forall i :: 0 <= i < threadIdx ==> partitionSums[i] == SeqSum(View(values, partitions[i]))
    {
      var local := LocalSum(View(values, partitions[threadIdx]));
      partitionSums[threadIdx] := local;
    }
    ghost var sums := partitionSums[..];
    assert forall i :: 0 <= i < nthreads ==> sums[i] == SeqSum(View(values, partitions[i]));
    SlotsAddUp(values, partitions, sums, nthreads);
    result := Reduce(partitionSums);
  }
}
