/** `OffsetGenerator` of 03_01_data_oriented_design/code/dram_block_size.cpp.

    The generator walks a range of rangeSize burst offsets as columnSize
    columns of rowSize rows: it visits the columns in a shuffled order and, in
    each column, the rows in a (possibly shuffled) order.  `std::ranges::shuffle`
    with the global Mersenne twister is not modelled: the constructor takes the
    permutations it would produce as parameters. */
module DramBlockSize {
  import opened Arith

  // ---------------------------------------------------------------------------
  // Arithmetic helpers

  lemma QuotientBelow(k: nat, m: nat, c: nat)
    requires m > 0 && k < m * c
    ensures k / m < c
  {
  }

  /** A position below R*C in a grid of C columns of R rows. */
  lemma Split(k: nat, R: nat, C: nat) returns (column: nat, row: nat)
    requires R > 0 && k < R * C
    ensures column == k / R && row == k % R
    ensures column < C && row < R && k == R * column + row
  {
    column, row := k / R, k % R;
    QuotientBelow(k, R, C);
  }

  // ---------------------------------------------------------------------------
  // Permutations

  /** p lists each of 0, ..., n-1 exactly once. */
  predicate IsPermutation(p: seq<int>, n: nat)
  {
    && |p| == n
    && (forall i :: 0 <= i < n ==> 0 <= p[i] < n)
    && (forall i, j :: 0 <= i < j < n ==> p[i] != p[j])
    && (forall v :: 0 <= v < n ==> v in p)
  }

  function Identity(n: nat): (r: seq<int>)
    ensures |r| == n && forall i :: 0 <= i < n ==> r[i] == i
  {
    seq(n, i => i)
  }

  lemma IdentityIsPermutation(n: nat)
    ensures IsPermutation(Identity(n), n)
  {
    forall v | 0 <= v < n
      ensures v in Identity(n)
    {
      assert Identity(n)[v] == v;
    }
  }

  /** The elements of p stored in a vector of `uint16_t`: `std::iota` with a
      `uint16_t` counter wraps modulo 2^16. */
  function Truncate16(p: seq<int>): (r: seq<int>)
    ensures |r| == |p| && forall i :: 0 <= i < |p| ==> r[i] == p[i] % 0x1_0000
  {
    seq(|p|, i requires 0 <= i < |p| => p[i] % 0x1_0000)
  }

  /** The same for `uint32_t`. */
  function Truncate32(p: seq<int>): (r: seq<int>)
    ensures |r| == |p| && forall i :: 0 <= i < |p| ==> r[i] == p[i] % 0x1_0000_0000
  {
    seq(|p|, i requires 0 <= i < |p| => p[i] % 0x1_0000_0000)
  }

  /** Up to 65536 rows the `uint16_t` table holds the permutation unchanged. */
  lemma RowShuffleFitsUpTo65536(p: seq<int>, n: nat)
    requires IsPermutation(p, n) && n <= 0x1_0000
    ensures Truncate16(p) == p
  {
  }

  /** Up to 2^32 columns the `uint32_t` table holds the permutation unchanged. */
  lemma ColumnShuffleFitsUpTo2To32(p: seq<int>, n: nat)
    requires IsPermutation(p, n) && n <= 0x1_0000_0000
    ensures Truncate32(p) == p
  {
  }

  /** Above 65536 rows it does not: the rows numbered 0 and 65536 collide. */
  lemma RowShuffleCollidesAbove65536(p: seq<int>, n: nat)
    requires IsPermutation(p, n) && n > 0x1_0000
    ensures !IsPermutation(Truncate16(p), n)
  {
    assert 0 in p && 0x1_0000 in p;
    var i :| 0 <= i < n && p[i] == 0;
    var j :| 0 <= j < n && p[j] == 0x1_0000;
    var t := Truncate16(p);
    assert t[i] == t[j];
    if i < j {
      assert !(forall a, b :: 0 <= a < b < n ==> t[a] != t[b]);
    } else {
      assert !(forall a, b :: 0 <= a < b < n ==> t[a] != t[b]);
    }
  }

  // ---------------------------------------------------------------------------
  // The offset sequence

  /** The offset the generator returns on its k-th call (counting from 0):
      row k % R of column (k / R) % C, each looked up in its shuffle table. */
  function OffsetAt(rows: seq<int>, columns: seq<int>, k: nat): int
    requires |rows| > 0 && |columns| > 0
  {
    |rows| * columns[(k / |rows|) % |columns|] + rows[k % |rows|]
  }

  /** Every offset lies in [0, R*C), hence in [0, rangeSize). */
  lemma OffsetInRange(rows: seq<int>, columns: seq<int>, k: nat)
    requires |rows| > 0 && |columns| > 0
    requires IsPermutation(rows, |rows|) && IsPermutation(columns, |columns|)
    ensures 0 <= OffsetAt(rows, columns, k) < |rows| * |columns|
  {
    var r, c := rows[k % |rows|], columns[(k / |rows|) % |columns|];
    assert c <= |columns| - 1;
    assert |rows| * c <= |rows| * (|columns| - 1);
  }

  /** The offset sequence repeats after R*C calls. */
  lemma OffsetPeriodic(rows: seq<int>, columns: seq<int>, k: nat)
    requires |rows| > 0 && |columns| > 0
    ensures OffsetAt(rows, columns, k + |rows| * |columns|) == OffsetAt(rows, columns, k)
  {
    var R, C := |rows|, |columns|;
    var q, r := k / R, k % R;
    DivModUnique(k + R * C, R, q + C, r);
    DivModUnique(q + C, C, q / C + 1, q % C);
  }

  /** Within the first R*C calls, call k reads row k % R of column k / R. */
  lemma OffsetInFirstRound(rows: seq<int>, columns: seq<int>, k: nat) returns (column: nat, row: nat)
    requires |rows| > 0 && |columns| > 0 && k < |rows| * |columns|
    ensures column == k / |rows| && row == k % |rows|
    ensures column < |columns| && row < |rows| && k == column * |rows| + row
    ensures OffsetAt(rows, columns, k) == |rows| * columns[column] + rows[row]
  {
    column, row := Split(k, |rows|, |columns|);
    DivModUnique(column, |columns|, 0, column);
  }

  /** R*a + b with 0 <= b < R determines a and b. */
  lemma SplitUnique(R: int, a1: int, b1: int, a2: int, b2: int)
    requires R > 0 && 0 <= b1 < R && 0 <= b2 < R && R * a1 + b1 == R * a2 + b2
    ensures a1 == a2 && b1 == b2
  {
    DivModUnique(R * a1 + b1, R, a1, b1);
    DivModUnique(R * a2 + b2, R, a2, b2);
  }

  /** Distinct (column, row) cells of the grid have distinct offsets. */
  lemma CellInjective(rows: seq<int>, columns: seq<int>, a1: nat, b1: nat, a2: nat, b2: nat)
    requires IsPermutation(rows, |rows|) && IsPermutation(columns, |columns|)
    requires a1 < |columns| && a2 < |columns| && b1 < |rows| && b2 < |rows|
    requires |rows| * columns[a1] + rows[b1] == |rows| * columns[a2] + rows[b2]
    ensures a1 == a2 && b1 == b2
  {
    SplitUnique(|rows|, columns[a1], rows[b1], columns[a2], rows[b2]);
  }

  /** No offset repeats within the first R*C calls. */
  lemma OffsetInjective(rows: seq<int>, columns: seq<int>, k1: nat, k2: nat)
    requires |rows| > 0 && |columns| > 0
    requires IsPermutation(rows, |rows|) && IsPermutation(columns, |columns|)
    requires k1 < |rows| * |columns| && k2 < |rows| * |columns|
    requires OffsetAt(rows, columns, k1) == OffsetAt(rows, columns, k2)
    ensures k1 == k2
  {
    var a1, b1 := OffsetInFirstRound(rows, columns, k1);
    var a2, b2 := OffsetInFirstRound(rows, columns, k2);
    CellInjective(rows, columns, a1, b1, a2, b2);
  }

  lemma BelowProduct(i: nat, j: nat, R: nat, C: nat)
    requires i < C && j < R
    ensures i * R + j < R * C
  {
    assert i * R <= (C - 1) * R;
  }

  /** Every index in [0, R*C) is returned by one of the first R*C calls. */
  lemma OffsetCovers(rows: seq<int>, columns: seq<int>, v: nat)
    requires |rows| > 0 && |columns| > 0
    requires IsPermutation(rows, |rows|) && IsPermutation(columns, |columns|)
    requires v < |rows| * |columns|
    ensures exists k :: 0 <= k < |rows| * |columns| && OffsetAt(rows, columns, k) == v
  {
    var R, C := |rows|, |columns|;
    var a, b := Split(v, R, C);
    assert a in columns && b in rows;
    var i :| 0 <= i < C && columns[i] == a;
    var j :| 0 <= j < R && rows[j] == b;
    var k := i * R + j;
    BelowProduct(i, j, R, C);
    var column, row := OffsetInFirstRound(rows, columns, k);
    SplitUnique(R, column, row, i, j);
  }

  /** Adding one to a number adds one to its remainder, modulo m. */
  lemma ModStep(q: nat, m: nat)
    requires m > 0
    ensures (q + 1) % m == (q % m + 1) % m
  {
    var d, r := q / m, q % m;
    assert q == d * m + r;
    if r + 1 < m {
      DivModUnique(q + 1, m, d, r + 1);
      DivModUnique(r + 1, m, 0, r + 1);
    } else {
      DivModUnique(q + 1, m, d + 1, 0);
      DivModUnique(r + 1, m, 1, 0);
    }
  }

  /** How the call counter's row and column advance by one call. */
  lemma CounterStep(k: nat, R: nat, C: nat)
    requires R > 0 && C > 0
    ensures k % R + 1 < R ==> (k + 1) % R == k % R + 1 && (k + 1) / R == k / R
    ensures k % R + 1 >= R ==> (k + 1) % R == 0 && ((k + 1) / R) % C == ((k / R) % C + 1) % C
  {
    var q, r := k / R, k % R;
    assert k == q * R + r;
    if r + 1 < R {
      DivModUnique(k + 1, R, q, r + 1);
    } else {
      DivModUnique(k + 1, R, q + 1, 0);
      ModStep(q, C);
    }
  }

  // ---------------------------------------------------------------------------
  // The generator object

  class OffsetGenerator {
    const rowSize: nat
    const columnSize: nat
    var rowIdx: nat
    var columnIdx: nat
    const rowShuffle: seq<int>
    const columnShuffle: seq<int>
    /** The number of offsets returned so far. */
    ghost var calls: nat

    ghost predicate Valid()
      reads this
    {
      && rowSize > 0
      && |rowShuffle| == rowSize
      && |columnShuffle| == columnSize
      && rowIdx == calls % rowSize
      && (columnSize > 0 ==> columnIdx == (calls / rowSize) % columnSize)
      && (columnSize == 0 ==> calls == 0 && columnIdx == 0)
    }

    /** `OffsetGenerator(rangeSize, rowSize, shuffle)`.  rowOrder and columnOrder
        are the permutations the shuffles produce; without `shuffle` the rows are
        left in iota order.  rowSize = 0 would divide by zero. */
    constructor (rangeSize: nat, rowSize: nat, shuffle: bool, rowOrder: seq<int>, columnOrder: seq<int>)
      requires rowSize > 0
      requires IsPermutation(rowOrder, rowSize) && (!shuffle ==> rowOrder == Identity(rowSize))
      requires IsPermutation(columnOrder, rangeSize / rowSize)
      ensures Valid() && calls == 0
      ensures this.rowSize == rowSize && columnSize == rangeSize / rowSize
      ensures rowShuffle == Truncate16(rowOrder) && columnShuffle == Truncate32(columnOrder)
      ensures rowIdx == 0 && columnIdx == 0
    {
      this.rowSize := rowSize;
      columnSize := rangeSize / rowSize;
      rowShuffle := Truncate16(rowOrder);
      columnShuffle := Truncate32(columnOrder);
      rowIdx := 0;
      columnIdx := 0;
      calls := 0;
    }

    /** `operator()`: the offset of the current row in the current column; then
        the next row, wrapping to the next column (modulo columnSize) after the
        last row.  With columnSize = 0 the first call reads an empty table. */
    method Next() returns (linearIdx: int)
      requires Valid() && columnSize > 0
      modifies this
      ensures Valid() && calls == old(calls) + 1
      ensures linearIdx == OffsetAt(rowShuffle, columnShuffle, old(calls))
      ensures old(rowIdx) + 1 < rowSize ==> rowIdx == old(rowIdx) + 1 && columnIdx == old(columnIdx)
      ensures old(rowIdx) + 1 >= rowSize ==> rowIdx == 0 && columnIdx == (old(columnIdx) + 1) % columnSize
    {
      linearIdx := rowSize * columnShuffle[columnIdx] + rowShuffle[rowIdx];
      CounterStep(calls, rowSize, columnSize);
      rowIdx := rowIdx + 1;
      if rowIdx >= rowSize {
        columnIdx := (columnIdx + 1) % columnSize;
        rowIdx := 0;
      }
      calls := calls + 1;
    }
  }

  /** The offsets of the first R*C calls, in call order. */
  function FirstRound(rows: seq<int>, columns: seq<int>): (r: seq<int>)
    requires |rows| > 0 && |columns| > 0
    ensures |r| == |rows| * |columns|
    ensures forall k :: 0 <= k < |r| ==> r[k] == OffsetAt(rows, columns, k)
  {
    seq(|rows| * |columns|, k requires 0 <= k < |rows| * |columns| => OffsetAt(rows, columns, k))
  }

  /** Starting fresh, the first R*C calls return every index of [0, R*C) exactly
      once; by OffsetPeriodic every later round repeats them. */
  lemma FirstRoundIsPermutation(rows: seq<int>, columns: seq<int>)
    requires |rows| > 0 && |columns| > 0
    requires IsPermutation(rows, |rows|) && IsPermutation(columns, |columns|)
    ensures IsPermutation(FirstRound(rows, columns), |rows| * |columns|)
  {
    var f, n := FirstRound(rows, columns), |rows| * |columns|;
    forall k | 0 <= k < n
      ensures 0 <= f[k] < n
    {
      OffsetInRange(rows, columns, k);
    }
    forall i, j | 0 <= i < j < n
      ensures f[i] != f[j]
    {
      if f[i] == f[j] {
        OffsetInjective(rows, columns, i, j);
      }
    }
    forall v | 0 <= v < n
      ensures v in f
    {
      OffsetCovers(rows, columns, v);
      var k :| 0 <= k < n && OffsetAt(rows, columns, k) == v;
      assert f[k] == v;
    }
  }

  /** The offsets of calls s, ..., s + R*C - 1, in call order. */
  function Round(rows: seq<int>, columns: seq<int>, s: nat): (r: seq<int>)
    requires |rows| > 0 && |columns| > 0
    ensures |r| == |rows| * |columns|
    ensures forall i :: 0 <= i < |r| ==> r[i] == OffsetAt(rows, columns, s + i)
  {
    seq(|rows| * |columns|, i requires 0 <= i < |rows| * |columns| => OffsetAt(rows, columns, s + i))
  }

  /** Call k returns what call k mod R*C of the first round returned. */
  lemma {:induction false} OffsetModPeriod(rows: seq<int>, columns: seq<int>, k: nat)
    requires |rows| > 0 && |columns| > 0
    ensures OffsetAt(rows, columns, k) == OffsetAt(rows, columns, k % (|rows| * |columns|))
    decreases k
  {
    var N := |rows| * |columns|;
    if k >= N {
      OffsetModPeriod(rows, columns, k - N);
      OffsetPeriodic(rows, columns, k - N);
      DivModUnique(k, N, (k - N) / N + 1, (k - N) % N);
    } else {
      DivModUnique(k, N, 0, k);
    }
  }

  /** N consecutive numbers have distinct remainders modulo N. */
  lemma ShiftInjective(s: nat, i: nat, j: nat, N: nat)
    requires i < j < N
    ensures (s + i) % N != (s + j) % N
  {
    var q1, q2 := (s + i) / N, (s + j) / N;
    if q1 < q2 {
      MulAtLeast(q2 - q1, N);
    } else if q1 > q2 {
      MulAtLeast(q1 - q2, N);
    }
  }

  /** Reading a permutation of [0, N) cyclically from any start gives a
      permutation again. */
  lemma RotationIsPermutation(f: seq<int>, w: seq<int>, N: nat, s: nat)
    requires IsPermutation(f, N) && |w| == N
    requires forall i :: 0 <= i < N ==> w[i] == f[(s + i) % N]
    ensures IsPermutation(w, N)
  {
    forall i, j | 0 <= i < j < N
      ensures w[i] != w[j]
    {
      ShiftInjective(s, i, j, N);
    }
    forall v | 0 <= v < N
      ensures v in w
    {
      assert v in f;
      var k :| 0 <= k < N && f[k] == v;
      var i := (k - s) % N;
      DivModUnique(s + i, N, -((k - s) / N), k);
      assert w[i] == v;
    }
  }

  /** Whatever call the generator has reached, its next R*C calls return every
      index of [0, R*C) exactly once. */
  lemma RoundIsPermutation(rows: seq<int>, columns: seq<int>, s: nat)
    requires |rows| > 0 && |columns| > 0
    requires IsPermutation(rows, |rows|) && IsPermutation(columns, |columns|)
    ensures IsPermutation(Round(rows, columns, s), |rows| * |columns|)
  {
    var N, w, f := |rows| * |columns|, Round(rows, columns, s), FirstRound(rows, columns);
    FirstRoundIsPermutation(rows, columns);
    forall i | 0 <= i < N
      ensures w[i] == f[(s + i) % N]
    {
      OffsetModPeriod(rows, columns, s + i);
    }
    RotationIsPermutation(f, w, N, s);
  }

  /** The generator as constructed, from the tables its constructor fills: with
      at most 65536 rows and 2^32 columns, every R*C consecutive calls return
      every index of the grid exactly once. */
  lemma GeneratorRoundsArePermutations(rowOrder: seq<int>, columnOrder: seq<int>, s: nat)
    requires 0 < |rowOrder| <= 0x1_0000 && 0 < |columnOrder| <= 0x1_0000_0000
    requires IsPermutation(rowOrder, |rowOrder|) && IsPermutation(columnOrder, |columnOrder|)
    ensures IsPermutation(Round(Truncate16(rowOrder), Truncate32(columnOrder), s), |rowOrder| * |columnOrder|)
  {
    RowShuffleFitsUpTo65536(rowOrder, |rowOrder|);
    ColumnShuffleFitsUpTo2To32(columnOrder, |columnOrder|);
    RoundIsPermutation(rowOrder, columnOrder, s);
  }

  /** The grid never exceeds the range: R * (rangeSize / R) <= rangeSize. */
  lemma GridWithinRange(rangeSize: nat, rowSize: nat)
    requires rowSize > 0
    ensures rowSize * (rangeSize / rowSize) <= rangeSize
  {
    assert rangeSize == (rangeSize / rowSize) * rowSize + rangeSize % rowSize;
  }
}
