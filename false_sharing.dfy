/** `get_my_values` of 03_01_data_oriented_design/code/false_sharing.cpp: the
    slice of the input that thread my_idx of nthreads sums.

    A `std::span` is a view into the caller's data; it is modelled as the
    offset and length of the view, and `View` gives the elements it shows. */
module FalseSharing {
  import opened Arith

  datatype Span = Span(first: nat, count: nat)

  /** The elements a span shows. */
  function View(values: seq<int>, s: Span): (r: seq<int>)
    requires s.first + s.count <= |values|
    ensures |r| == s.count
  {
    values[s.first..s.first + s.count]
  }

  /** `(values.size() + nthreads - 1) / nthreads`: the size divided by the number
      of threads, rounded up. */
  function Base(size: nat, nthreads: nat): nat
    requires nthreads > 0
  {
    (size + nthreads - 1) / nthreads
  }

  /** Base is the ceiling of size / nthreads. */
  lemma BaseIsCeiling(size: nat, nthreads: nat)
    requires nthreads > 0
    ensures Base(size, nthreads) * nthreads >= size
    ensures Base(size, nthreads) > 0 ==> (Base(size, nthreads) - 1) * nthreads < size
  {
    var b := Base(size, nthreads);
    var r := (size + nthreads - 1) % nthreads;
    assert size + nthreads - 1 == b * nthreads + r;
  }

  /** `get_my_values(values, my_idx, nthreads)`: the slice from base * my_idx to
      min(size, base * (my_idx + 1)).  The length is computed as an unsigned
      difference, so the start must not lie past the end of the data. */
  function GetMyValues(values: seq<int>, myIdx: nat, nthreads: nat): (r: Span)
    requires nthreads > 0 && Base(|values|, nthreads) * myIdx <= |values|
    ensures r.first + r.count <= |values|
  {
    var myBase := Base(|values|, nthreads);
    var myStart := myBase * myIdx;
    var myEnd := Min(|values|, myBase * (myIdx + 1));
    Span(myStart, myEnd - myStart)
  }

  /** The slice starts at base * my_idx, holds at most base elements, and ends at
      base * (my_idx + 1) or at the end of the data, whichever comes first. */
  lemma SliceBounds(values: seq<int>, myIdx: nat, nthreads: nat)
    requires nthreads > 0 && Base(|values|, nthreads) * myIdx <= |values|
    ensures GetMyValues(values, myIdx, nthreads).first == Base(|values|, nthreads) * myIdx
    ensures GetMyValues(values, myIdx, nthreads).count <= Base(|values|, nthreads)
    ensures GetMyValues(values, myIdx, nthreads).first + GetMyValues(values, myIdx, nthreads).count
         == Min(|values|, Base(|values|, nthreads) * (myIdx + 1))
  {
    var b := Base(|values|, nthreads);
    assert b * (myIdx + 1) == b * myIdx + b;
  }

  /** The slices of neighbouring threads are adjacent: thread my_idx + 1 starts
      where thread my_idx ends. */
  lemma SlicesAdjacent(values: seq<int>, myIdx: nat, nthreads: nat)
    requires nthreads > 0 && Base(|values|, nthreads) * (myIdx + 1) <= |values|
    ensures Base(|values|, nthreads) * myIdx <= |values|
    ensures var s := GetMyValues(values, myIdx, nthreads);
      s.first + s.count == GetMyValues(values, myIdx + 1, nthreads).first
  {
    var b := Base(|values|, nthreads);
    assert b * (myIdx + 1) == b * myIdx + b;
  }

  /** The last thread's slice ends at the end of the data. */
  lemma LastSliceEndsAtSize(values: seq<int>, nthreads: nat)
    requires nthreads > 0 && Base(|values|, nthreads) * (nthreads - 1) <= |values|
    ensures var s := GetMyValues(values, nthreads - 1, nthreads);
      s.first + s.count == |values|
  {
    BaseIsCeiling(|values|, nthreads);
    assert Base(|values|, nthreads) * (nthreads - 1 + 1) == Base(|values|, nthreads) * nthreads;
  }

  /** The slices of threads 0, ..., k - 1, concatenated. */
  function Slices(values: seq<int>, k: nat, nthreads: nat): seq<int>
    requires nthreads > 0 && k <= nthreads && Base(|values|, nthreads) * (nthreads - 1) <= |values|
  {
    if k == 0 then [] else
      Monotone(Base(|values|, nthreads), k - 1, nthreads - 1);
      Slices(values, k - 1, nthreads) + View(values, GetMyValues(values, k - 1, nthreads))
  }

  lemma Monotone(b: nat, i: nat, j: nat)
    requires i <= j
    ensures b * i <= b * j
  {
  }

  /** Together the nthreads slices are the whole data, in order. */
  lemma {:induction false} SlicesCover(values: seq<int>, k: nat, nthreads: nat)
    requires nthreads > 0 && k <= nthreads && Base(|values|, nthreads) * (nthreads - 1) <= |values|
    ensures k > 0 ==> Base(|values|, nthreads) * (k - 1) <= |values|
    ensures k > 0 ==>
      var s := GetMyValues(values, k - 1, nthreads);
      Slices(values, k, nthreads) == values[..s.first + s.count]
    ensures k == nthreads ==> Slices(values, k, nthreads) == values
  {
    var b := Base(|values|, nthreads);
    if k > 0 {
      Monotone(b, k - 1, nthreads - 1);
      var s := GetMyValues(values, k - 1, nthreads);
      if k == 1 {
        assert s.first == 0;
      } else {
        SlicesCover(values, k - 1, nthreads);
        SlicesAdjacent(values, k - 2, nthreads);
        assert values[..s.first] + values[s.first..s.first + s.count] == values[..s.first + s.count];
      }
      if k == nthreads {
        LastSliceEndsAtSize(values, nthreads);
      }
    }
  }

  // ---------------------------------------------------------------------------
  // Many threads on little data

  /** The slice with its start clamped to the end of the data: the same slice
      whenever get_my_values is defined, and empty past the end. */
  function GetMyValuesClamped(values: seq<int>, myIdx: nat, nthreads: nat): (r: Span)
    requires nthreads > 0
    ensures r.first + r.count <= |values|
  {
    var myBase := Base(|values|, nthreads);
    var myStart := Min(|values|, myBase * myIdx);
    var myEnd := Min(|values|, myBase * (myIdx + 1));
    Span(myStart, myEnd - myStart)
  }

  lemma ClampedAgrees(values: seq<int>, myIdx: nat, nthreads: nat)
    requires nthreads > 0 && Base(|values|, nthreads) * myIdx <= |values|
    ensures GetMyValuesClamped(values, myIdx, nthreads) == GetMyValues(values, myIdx, nthreads)
  {
  }

  /** With 5 values and 4 threads the base is 2, and thread 3 would start at 6,
      past the end, where `my_end - my_start` underflows: get_my_values is not
      defined there, and the clamped slice is the empty one at the end. */
  lemma LateSliceStartsPastEnd(values: seq<int>)
    requires |values| == 5
    ensures Base(|values|, 4) == 2 && !(Base(|values|, 4) * 3 <= |values|)
    ensures GetMyValuesClamped(values, 3, 4) == Span(5, 0)
  {
  }

  /** For every number of threads, the clamped slices are adjacent and the last
      one ends at the end of the data. */
  lemma ClampedSlicesTile(values: seq<int>, myIdx: nat, nthreads: nat)
    requires nthreads > 0
    ensures var s := GetMyValuesClamped(values, myIdx, nthreads);
      s.first + s.count == GetMyValuesClamped(values, myIdx + 1, nthreads).first
    ensures var s := GetMyValuesClamped(values, nthreads - 1, nthreads);
      s.first + s.count == |values|
    ensures GetMyValuesClamped(values, 0, nthreads).first == 0
  {
    var b := Base(|values|, nthreads);
    assert b * (myIdx + 1) == b * myIdx + b;
    BaseIsCeiling(|values|, nthreads);
    assert b * (nthreads - 1 + 1) == b * nthreads;
  }
}
