/** The `main` programs and tests of the cursor library, run on the heap
    objects.  Each method builds its cursors afresh and returns what `dump`
    prints (or what `to_vector` returns); the fuel it passes is the number of
    elements one filter scan has to skip. */
module CursorScenarios {
  import opened CursorSpec
  import opened CursorLaws
  import opened CursorObjects

  // ---------------------------------------------------------------------------
  // cursor.hpp, cursor.cpp, test_cursor.cpp

  /** `c | take(n) | dump`, as `take_and_dump = take(5) | dump` does: the take
      holds c by reference, so c is left advanced by the elements printed. */
  method TakeAndDump(c: Cursor, n: nat, ghost fuel: nat) returns (printed: seq<int>)
    requires c.Valid() && Pulls(c.Model(), n, fuel)
    modifies c.Repr
    ensures c.Valid()
    ensures printed == Outputs(old(c.Model()), n, fuel)
    ensures c.Model() == Drained(old(c.Model()), n, fuel)
  {
    TakeIsPrefix(c.Model(), n, n, fuel);
    TakeFinishes(c.Model(), n, fuel);
    var t := new Cursor.Take(c, n);
    printed := Dump(t, n, fuel);
  }

  /** `numbers_from(-5) | take_and_dump` */
  method TakeAndDumpFromMinusFive() returns (printed: seq<int>)
    ensures printed == [-5, -4, -3, -2, -1]
  {
    var n := new Cursor.NumbersFrom(-5);
    NumbersFromCounts(-5, 5, 0);
    printed := TakeAndDump(n, 5, 0);
  }

  /** `auto n = numbers_from(v); n | take(k) | dump; n | squared | take(k) | dump;`
      (cursor.cpp runs it with v = 0 and take_and_dump = take(5) | dump).  The
      take holds n by reference, so the first dump leaves n at v + k and the
      second continues from there. */
  method SharedTakeAndDump(v: int, k: nat) returns (first: seq<int>, second: seq<int>, counter: int)
    ensures first == Interval(v, k)
    ensures counter == v + k
    ensures second == MapSeq(Sq, Interval(v + k, k))
  {
    var c := new Cursor.NumbersFrom(v);
    NumbersFromCounts(v, k, 0);
    first := TakeAndDump(c, k, 0);
    assert c.Model() == NumbersFrom(v + k);
    counter := c.Get();
    NumbersFromCounts(v + k, k, 0);
    TransformMaps(Sq, NumbersFrom(v + k), k, 0);
    var sq := new Cursor.Transform(Sq, c);
    assert sq.Model() == Transform(Sq, NumbersFrom(v + k));
    second := TakeAndDump(sq, k, 0);
  }

  /** With v = 0 and k = 5 the second dump prints 25, 36, 49, 64, 81. */
  lemma SquaresFromFive()
    ensures MapSeq(Sq, Interval(5, 5)) == [25, 36, 49, 64, 81]
  {
    assert Interval(5, 5) == [5, 6, 7, 8, 9];
  }

  /** `dump_any_int_cursor(any_cursor<int>(numbers_from(42) | take(2)))` */
  method AnyCursorOfTake() returns (printed: seq<int>)
    ensures printed == [42, 43]
  {
    var n := new Cursor.NumbersFrom(42);
    var t := new Cursor.Take(n, 2);
    var a := new Cursor.AnyCursor(t);
    AnyCursorOfTakeYields();
    printed := Dump(a, 2, 0);
  }

  lemma AnyCursorOfTakeYields()
    ensures Finishes(Erased(Take(NumbersFrom(42), 2)), 2, 0)
    ensures Outputs(Erased(Take(NumbersFrom(42), 2)), 2, 0) == [42, 43]
  {
    TakeFromNumbers(42, 2, 0);
    ErasedForwards(Take(NumbersFrom(42), 2), 2, 0);
    assert Interval(42, 2) == [42, 43];
  }

  // ---------------------------------------------------------------------------
  // sol1_filter.cpp, with `odd = filter([](auto a) { return a % 2 == 1; })`

  /** `numbers_from(2) | odd | take(5) | dump` */
  method OddThenTake() returns (printed: seq<int>)
    ensures printed == [3, 5, 7, 9, 11]
  {
    var n := new Cursor.NumbersFrom(2);
    OddFilterStarts(2);
    var f := new Cursor.Filter(Odd, n, 1);
    var t := new Cursor.Take(f, 5);
    OddThenTakeYields();
    printed := Dump(t, 5, 1);
  }

  lemma OddThenTakeYields()
    ensures Finishes(Take(Filter(Odd, NumbersFrom(3)), 5), 5, 1)
    ensures Outputs(Take(Filter(Odd, NumbersFrom(3)), 5), 5, 1) == [3, 5, 7, 9, 11]
  {
    OddFilterCounts(3, 5);
    TakeIsPrefix(Filter(Odd, NumbersFrom(3)), 5, 5, 1);
    TakeFinishes(Filter(Odd, NumbersFrom(3)), 5, 1);
    assert EverySecond(3, 5) == [3, 5, 7, 9, 11];
  }

  /** `numbers_from(v) | take(n) | odd | dump`: the odd elements of v, ...,
      v + n - 1 (sol1_filter.cpp runs it with v = 2 and v = 3, n = 5). */
  method TakeThenOdd(v: int, n: nat) returns (printed: seq<int>)
    ensures printed == FilterSeq(Odd, Interval(v, n))
  {
    var c := new Cursor.NumbersFrom(v);
    var t := new Cursor.Take(c, n);
    TakeFromNumbers(v, n, n);
    FilterFromKeepsMatches(Odd, Take(NumbersFrom(v), n), n, n);
    var f := new Cursor.Filter(Odd, t, n);
    printed := Dump(f, n, n);
  }

  lemma OddFromTwo()
    ensures FilterSeq(Odd, Interval(2, 5)) == [3, 5]
  {
    assert Interval(2, 5) == [2, 3, 4, 5, 6];
  }

  lemma OddFromThree()
    ensures FilterSeq(Odd, Interval(3, 5)) == [3, 5, 7]
  {
    assert Interval(3, 5) == [3, 4, 5, 6, 7];
  }

  /** `auto n = numbers_from(v); n | odd | take(2) | dump; n | odd | take(2) | dump;`
      for an odd v > 1 (sol1_filter.cpp runs it with v = 3).  The first run's
      last `next` advances n past v + 2 and rescans it to v + 4, where the
      second run starts. */
  method SharedOddTakeTwo(v: int) returns (first: seq<int>, second: seq<int>)
    requires v > 1 && v % 2 == 1
    ensures first == [v, v + 2]
    ensures second == [v + 4, v + 6]
  {
    var c := new Cursor.NumbersFrom(v);
    first := OddTakeTwoAndDump(c, v);
    second := OddTakeTwoAndDump(c, v + 4);
  }

  /** `n | odd | take(2) | dump` on a shared numbers_from standing on an odd
      v > 1: prints v and v + 2 and leaves n at v + 4. */
  method OddTakeTwoAndDump(c: Cursor, v: int) returns (printed: seq<int>)
    requires c.Valid() && c.Model() == NumbersFrom(v) && v > 1 && v % 2 == 1
    modifies c.Repr
    ensures c.Valid() && c.Model() == NumbersFrom(v + 4)
    ensures printed == [v, v + 2]
  {
    OddFilterStarts(v - 1);
    OddTakeTwo(v);
    var f := new Cursor.Filter(Odd, c, 1);
    assert f.Model() == Filter(Odd, NumbersFrom(v));
    printed := TakeAndDump(f, 2, 1);
    assert f.Model() == Filter(Odd, c.Model());
  }

  /** Two rounds of filter(odd) positioned on an odd v > 0 read v and v + 2 and
      leave the counter at v + 4. */
  lemma OddTakeTwo(v: int)
    requires v > 0 && v % 2 == 1
    ensures Pulls(Filter(Odd, NumbersFrom(v)), 2, 1)
    ensures Outputs(Filter(Odd, NumbersFrom(v)), 2, 1) == [v, v + 2]
    ensures Drained(Filter(Odd, NumbersFrom(v)), 2, 1) == Filter(Odd, NumbersFrom(v + 4))
  {
    OddFilterCounts(v, 2);
    assert EverySecond(v, 2) == [v, v + 2];
  }

  // ---------------------------------------------------------------------------
  // sol2_to_vector.cpp

  /** `numbers_from(2) | take(5) | to_vector == std::vector<int>{2, 3, 4, 5, 6}` */
  method TakeToVector() returns (res: seq<int>)
    ensures res == [2, 3, 4, 5, 6]
  {
    var n := new Cursor.NumbersFrom(2);
    var t := new Cursor.Take(n, 5);
    TakeToVectorYields();
    res := ToVector(t, 5, 0);
  }

  lemma TakeToVectorYields()
    ensures Finishes(Take(NumbersFrom(2), 5), 5, 0)
    ensures Outputs(Take(NumbersFrom(2), 5), 5, 0) == [2, 3, 4, 5, 6]
  {
    TakeFromNumbers(2, 5, 0);
    assert Interval(2, 5) == [2, 3, 4, 5, 6];
  }

  /** A cursor that is already done, such as take(0), yields the empty vector. */
  method TakeZeroToVector(v: int) returns (res: seq<int>)
    ensures res == []
  {
    var n := new Cursor.NumbersFrom(v);
    var t := new Cursor.Take(n, 0);
    res := ToVector(t, 0, 0);
  }

  // ---------------------------------------------------------------------------
  // 02_05_examples_sid/code/cursor.cpp

  /** `dump(a_very_concrete_cursor{})` */
  method DumpVeryConcrete() returns (printed: seq<int>)
    ensures printed == [1, 2, 3, 4, 5]
  {
    var c := new Cursor.VeryConcrete();
    ConcreteYields([1, 2, 3, 4, 5], 0, 0);
    assert [1, 2, 3, 4, 5][0..] == [1, 2, 3, 4, 5];
    printed := Dump(c, 5, 0);
  }

  /** `dump(range(2, 5))` */
  method DumpRange() returns (printed: seq<int>)
    ensures printed == [2, 3, 4]
  {
    var r := new Cursor.Range(2, 5);
    RangeYields(2, 5, 3, 0);
    printed := Dump(r, 3, 0);
  }

  /** `dump(take(n)(numbers_from(v)))` with the budget-only take: v, ...,
      v + n - 1 (cursor.cpp runs it with v = 7, n = 10). */
  method DumpBudgetTake(v: int, n: nat) returns (printed: seq<int>)
    ensures printed == Interval(v, n)
  {
    var c := new Cursor.NumbersFrom(v);
    var t := new Cursor.BudgetTake(c, n);
    NumbersFromCounts(v, n, 0);
    BudgetTakeIsPrefix(NumbersFrom(v), n, n, 0);
    printed := Dump(t, n, 0);
  }

  /** `dump(take(n)(square_impl(numbers_from(v))))`: the squares of v, ...,
      v + n - 1 (cursor.cpp runs it with v = 2, n = 10: 4, 9, ..., 121). */
  method DumpTakeOfSquares(v: int, n: nat) returns (printed: seq<int>)
    ensures printed == MapSeq(Sq, Interval(v, n))
  {
    var c := new Cursor.NumbersFrom(v);
    var s := new Cursor.Square(c);
    var t := new Cursor.BudgetTake(s, n);
    NumbersFromCounts(v, n, 0);
    SquareMaps(NumbersFrom(v), n, 0);
    BudgetTakeIsPrefix(Square(NumbersFrom(v)), n, n, 0);
    printed := Dump(t, n, 0);
  }

  /** `range(start, stop) | take_10_and_dump` over a range at least ten long:
      start, ..., start + 9 (cursor.cpp runs it on range(100, 120)). */
  method DumpRangeTakeTen(start: int, stop: int) returns (printed: seq<int>)
    requires start + 10 <= stop
    ensures printed == Interval(start, 10)
  {
    var r := new Cursor.Range(start, stop);
    var t := new Cursor.BudgetTake(r, 10);
    RangeYields(start, stop, 10, 0);
    BudgetTakeIsPrefix(Range(start, stop), 10, 10, 0);
    printed := Dump(t, 10, 0);
  }

  /** `any_cursor<int> a = { range(start, stop) }; my_complicated_algorithm(a);`:
      start, ..., stop - 1 (cursor.cpp runs it on range(10, 20)). */
  method DumpAnyRange(start: int, stop: int) returns (printed: seq<int>)
    ensures printed == Interval(start, Budget(stop - start))
  {
    var r := new Cursor.Range(start, stop);
    var a := new Cursor.AnyCursor(r);
    RangeYields(start, stop, Budget(stop - start), 0);
    ErasedForwards(Range(start, stop), Budget(stop - start), 0);
    printed := Dump(a, Budget(stop - start), 0);
  }

  /** take(n) over adopted_numbers_from{ {v} }, the wrapper cursor.cpp declares
      and checks against the Cursor concept (its main builds none): the
      wrapper's own counter yields v, ..., v + n - 1 and is left at v + n. */
  method DumpAdoptedTake(v: int, n: nat) returns (printed: seq<int>, counter: int)
    ensures printed == Interval(v, n)
    ensures counter == v + n
  {
    var w := new Cursor.Adopt(v);
    var t := new Cursor.BudgetTake(w, n);
    AdoptedBudgetTake(v, n, 0);
    printed := Dump(t, n, 0);
    assert t.Model() == BudgetTake(Adopted(v + n), 0);
    counter := w.Get();
  }
}
