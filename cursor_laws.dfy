/** What the sources and adapters of the cursor library yield, stated over the
    abstract chain value of module CursorSpec: the elements a consumer reads
    (`Outputs`), whether it is exhausted (`Finishes`) and where it stops
    (`Drained`). */
module CursorLaws {
  import opened Optional
  import opened CursorSpec
  import opened Arith

  /** A budget as a count of rounds: take_impl_ treats left_ <= 0 as spent. */
  function Budget(left: int): nat
  {
    if left < 0 then 0 else left
  }

  // ---------------------------------------------------------------------------
  // Consumer bookkeeping

  /** Fewer rounds than a defined run are defined too. */
  lemma {:induction false} PullsPrefix(s: State, n: nat, m: nat, fuel: nat)
    requires Pulls(s, n, fuel) && m <= n
    ensures Pulls(s, m, fuel)
    decreases m
  {
    if m > 0 && !Done(s) {
      PullsPrefix(Step(s, fuel).value, n - 1, m - 1, fuel);
    }
  }

  /** Once a cursor is exhausted within n rounds, further rounds read nothing and
      move nothing. */
  lemma {:induction false} FinishesExtend(s: State, n: nat, m: nat, fuel: nat)
    requires Finishes(s, n, fuel) && n <= m
    ensures Finishes(s, m, fuel)
    ensures Outputs(s, m, fuel) == Outputs(s, n, fuel)
    ensures Drained(s, m, fuel) == Drained(s, n, fuel)
    decreases n
  {
    if !Done(s) {
      assert n > 0;
      FinishesExtend(Step(s, fuel).value, n - 1, m - 1, fuel);
    }
  }

  /** One round of a consumer on a cursor that is not yet done: it reads `get`,
      steps, and leaves one round fewer to finish in. */
  lemma RoundUnfolds(s: State, n: nat, fuel: nat)
    requires Finishes(s, n, fuel) && !Done(s)
    ensures n > 0 && Readable(s) && Step(s, fuel).Some?
    ensures Finishes(Step(s, fuel).value, n - 1, fuel)
    ensures Outputs(s, n, fuel) == [Get(s)] + Outputs(Step(s, fuel).value, n - 1, fuel)
    ensures Drained(s, n, fuel) == Drained(Step(s, fuel).value, n - 1, fuel)
  {
  }

  // ---------------------------------------------------------------------------
  // Sources

  /** numbers_from is never done: any number of rounds reads value_, value_ + 1, ...
      and leaves the counter advanced by exactly that many. */
  lemma {:induction false} NumbersFromCounts(v: int, n: nat, fuel: nat)
    ensures Pulls(NumbersFrom(v), n, fuel)
    ensures Outputs(NumbersFrom(v), n, fuel) == Interval(v, n)
    ensures Drained(NumbersFrom(v), n, fuel) == NumbersFrom(v + n)
    ensures !Finishes(NumbersFrom(v), n, fuel)
    decreases n
  {
    if n > 0 {
      NumbersFromCounts(v + 1, n - 1, fuel);
    }
  }

  /** The adopted AnotherAPI::NumbersFrom behaves like numbers_from. */
  lemma {:induction false} AdoptedCounts(v: int, n: nat, fuel: nat)
    ensures Pulls(Adopted(v), n, fuel)
    ensures Outputs(Adopted(v), n, fuel) == Interval(v, n)
    ensures Drained(Adopted(v), n, fuel) == Adopted(v + n)
    ensures !Finishes(Adopted(v), n, fuel)
    decreases n
  {
    if n > 0 {
      AdoptedCounts(v + 1, n - 1, fuel);
    }
  }

  /** The earlier library's take(left) over the adopted counter from v reads
      v, ..., v + left - 1 and leaves the foreign counter at v + left. */
  lemma {:induction false} AdoptedBudgetTake(v: int, left: nat, fuel: nat)
    ensures Finishes(BudgetTake(Adopted(v), left), left, fuel)
    ensures Outputs(BudgetTake(Adopted(v), left), left, fuel) == Interval(v, left)
    ensures Drained(BudgetTake(Adopted(v), left), left, fuel) == BudgetTake(Adopted(v + left), 0)
    decreases left
  {
    if left > 0 {
      AdoptedBudgetTake(v + 1, left - 1, fuel);
      var t := BudgetTake(Adopted(v), left);
      assert Step(t, fuel) == Some(BudgetTake(Adopted(v + 1), left - 1));
      assert Get(t) == Get(Adopted(v)) == v;
      assert !Done(t) && Readable(t);
      assert Pulls(t, left, fuel);
      assert Outputs(t, left, fuel)
          == [v] + Outputs(BudgetTake(Adopted(v + 1), left - 1), left - 1, fuel);
    }
  }

  /** range{start, stop} yields start, start + 1, ... and is done exactly once
      start_ >= stop_: n rounds read the first min(n, stop - start) of them, and
      the range is exhausted after n rounds if and only if n >= stop - start. */
  lemma {:induction false} RangeYields(start: int, stop: int, n: nat, fuel: nat)
    ensures Pulls(Range(start, stop), n, fuel)
    ensures Outputs(Range(start, stop), n, fuel) == Interval(start, Min(n, Budget(stop - start)))
    ensures Drained(Range(start, stop), n, fuel) == Range(start + Min(n, Budget(stop - start)), stop)
    ensures Finishes(Range(start, stop), n, fuel) <==> n >= stop - start
    decreases n
  {
    if n > 0 && start < stop {
      RangeYields(start + 1, stop, n - 1, fuel);
    }
  }

  /** a_very_concrete_cursor yields its array from index i on and is then done. */
  lemma {:induction false} ConcreteYields(data: seq<int>, i: nat, fuel: nat)
    requires i <= |data|
    ensures Finishes(Concrete(data, i), |data| - i, fuel)
    ensures Outputs(Concrete(data, i), |data| - i, fuel) == data[i..]
    decreases |data| - i
  {
    if i < |data| {
      ConcreteYields(data, i + 1, fuel);
      assert data[i..] == [data[i]] + data[i + 1..];
    }
  }

  // ---------------------------------------------------------------------------
  // take

  /** take(left) reads exactly the first min(n, left) elements its upstream would
      give in n rounds, and leaves the upstream advanced by exactly as many steps
      as it read elements, with the budget decremented once per step. */
  lemma {:induction false} TakeIsPrefix(u: State, left: int, n: nat, fuel: nat)
    requires Pulls(u, n, fuel)
    ensures Pulls(Take(u, left), n, fuel)
    ensures Pulls(u, Min(n, Budget(left)), fuel)
    ensures Outputs(Take(u, left), n, fuel) == Outputs(u, Min(n, Budget(left)), fuel)
    ensures Drained(Take(u, left), n, fuel)
         == Take(Drained(u, Min(n, Budget(left)), fuel), left - |Outputs(u, Min(n, Budget(left)), fuel)|)
    decreases n
  {
    PullsPrefix(u, n, Min(n, Budget(left)), fuel);
    if n > 0 && !Done(u) && left > 0 {
      TakeIsPrefix(Step(u, fuel).value, left - 1, n - 1, fuel);
    }
  }

  /** take(left) over any upstream that can be pulled left times is exhausted after
      at most left rounds; take(0) is done before any `get`. */
  lemma {:induction false} TakeFinishes(u: State, left: int, fuel: nat)
    requires Pulls(u, Budget(left), fuel)
    ensures Finishes(Take(u, left), Budget(left), fuel)
    decreases Budget(left)
  {
    if left > 0 && !Done(u) {
      TakeFinishes(Step(u, fuel).value, left - 1, fuel);
    }
  }

  /** Over an upstream that yields at least n elements (numbers_from, say),
      take(n) yields exactly n elements and is then done. */
  lemma TakeOfEndlessYieldsN(u: State, n: nat, fuel: nat)
    requires Pulls(u, n, fuel) && |Outputs(u, n, fuel)| == n
    ensures Finishes(Take(u, n), n, fuel)
    ensures Outputs(Take(u, n), n, fuel) == Outputs(u, n, fuel)
    ensures |Outputs(Take(u, n), n, fuel)| == n
  {
    TakeIsPrefix(u, n, n, fuel);
    TakeFinishes(u, n, fuel);
  }

  /** take(n) over numbers_from(v) reads v, ..., v + n - 1 and stops with the
      counter at v + n and the budget spent. */
  lemma TakeFromNumbers(v: int, n: nat, fuel: nat)
    ensures Finishes(Take(NumbersFrom(v), n), n, fuel)
    ensures Outputs(Take(NumbersFrom(v), n), n, fuel) == Interval(v, n)
    ensures Drained(Take(NumbersFrom(v), n), n, fuel) == Take(NumbersFrom(v + n), 0)
  {
    NumbersFromCounts(v, n, fuel);
    TakeIsPrefix(NumbersFrom(v), n, n, fuel);
    TakeFinishes(NumbersFrom(v), n, fuel);
  }

  /** take(n) over transform(f)(numbers_from(v)) reads f(v), ..., f(v + n - 1). */
  lemma TakeTransformedNumbers(f: int -> int, v: int, n: nat, fuel: nat)
    ensures Finishes(Take(Transform(f, NumbersFrom(v)), n), n, fuel)
    ensures Outputs(Take(Transform(f, NumbersFrom(v)), n), n, fuel) == MapSeq(f, Interval(v, n))
  {
    NumbersFromCounts(v, n, fuel);
    TransformMaps(f, NumbersFrom(v), n, fuel);
    TakeIsPrefix(Transform(f, NumbersFrom(v)), n, n, fuel);
    TakeFinishes(Transform(f, NumbersFrom(v)), n, fuel);
  }

  /** The earlier library's take: over an upstream that yields at least n
      elements, it reads the first min(n, left) of them. */
  lemma {:induction false} BudgetTakeIsPrefix(u: State, left: int, n: nat, fuel: nat)
    requires Pulls(u, n, fuel) && |Outputs(u, n, fuel)| == n
    ensures Pulls(BudgetTake(u, left), n, fuel)
    ensures Pulls(u, Min(n, Budget(left)), fuel)
    ensures Outputs(BudgetTake(u, left), n, fuel) == Outputs(u, Min(n, Budget(left)), fuel)
    ensures Budget(left) <= n ==> Finishes(BudgetTake(u, left), n, fuel)
    decreases n
  {
    PullsPrefix(u, n, Min(n, Budget(left)), fuel);
    if n > 0 && left > 0 {
      BudgetTakeIsPrefix(Step(u, fuel).value, left - 1, n - 1, fuel);
    }
  }

  /** The earlier library's take ignores its upstream's `done`: over the array
      cursor with a budget larger than what is left of the array, the round after
      the array's end finds the take not done and its `get` out of bounds. */
  lemma {:induction false} BudgetTakeReadsPastEnd(data: seq<int>, i: nat, left: int, fuel: nat)
    requires i <= |data| && left > |data| - i
    ensures Pulls(BudgetTake(Concrete(data, i), left), |data| - i, fuel)
    ensures var past := Drained(BudgetTake(Concrete(data, i), left), |data| - i, fuel);
      !Done(past) && !Readable(past)
    ensures !Pulls(BudgetTake(Concrete(data, i), left), |data| - i + 1, fuel)
    decreases |data| - i
  {
    if i < |data| {
      BudgetTakeReadsPastEnd(data, i + 1, left - 1, fuel);
      assert Step(BudgetTake(Concrete(data, i), left), fuel) == Some(BudgetTake(Concrete(data, i + 1), left - 1));
    }
  }

  // ---------------------------------------------------------------------------
  // transform, square_impl, any_cursor

  /** transform(f) reads f of each upstream element, recomputed per element, and
      moves exactly as its upstream does (`to_vector(c | transform(f))` equals
      `map(f, to_vector(c))`). */
  lemma {:induction false} TransformMaps(f: int -> int, u: State, n: nat, fuel: nat)
    ensures Pulls(Transform(f, u), n, fuel) <==> Pulls(u, n, fuel)
    ensures Pulls(u, n, fuel) ==>
      && Outputs(Transform(f, u), n, fuel) == MapSeq(f, Outputs(u, n, fuel))
      && Drained(Transform(f, u), n, fuel) == Transform(f, Drained(u, n, fuel))
      && (Finishes(Transform(f, u), n, fuel) <==> Finishes(u, n, fuel))
    decreases n
  {
    if n > 0 && !Done(u) && Readable(u) && Step(u, fuel).Some? {
      TransformMaps(f, Step(u, fuel).value, n - 1, fuel);
      if Pulls(Step(u, fuel).value, n - 1, fuel) {
        var rest := Outputs(Step(u, fuel).value, n - 1, fuel);
        assert ([Get(u)] + rest)[1..] == rest;
      }
    }
  }

  /** square_impl reads the square of each upstream element, calling the
      upstream's `get` twice, and moves exactly as its upstream does. */
  lemma {:induction false} SquareMaps(u: State, n: nat, fuel: nat)
    ensures Pulls(Square(u), n, fuel) <==> Pulls(u, n, fuel)
    ensures Pulls(u, n, fuel) ==>
      && Outputs(Square(u), n, fuel) == MapSeq(Sq, Outputs(u, n, fuel))
      && Drained(Square(u), n, fuel) == Square(Drained(u, n, fuel))
      && (Finishes(Square(u), n, fuel) <==> Finishes(u, n, fuel))
    decreases n
  {
    if n > 0 && !Done(u) && Readable(u) && Step(u, fuel).Some? {
      SquareMaps(Step(u, fuel).value, n - 1, fuel);
      if Pulls(Step(u, fuel).value, n - 1, fuel) {
        var rest := Outputs(Step(u, fuel).value, n - 1, fuel);
        assert ([Get(u)] + rest)[1..] == rest;
      }
    }
  }

  /** square_impl and `squared = transform(a * a)` are interchangeable. */
  lemma SquareIsSquared(u: State, n: nat, fuel: nat)
    requires Pulls(u, n, fuel)
    ensures Pulls(Square(u), n, fuel) && Pulls(Transform(Sq, u), n, fuel)
    ensures Outputs(Square(u), n, fuel) == Outputs(Transform(Sq, u), n, fuel)
  {
    SquareMaps(u, n, fuel);
    TransformMaps(Sq, u, n, fuel);
  }

  /** any_cursor is transparent: wrapping changes neither what a consumer can
      pull, nor what it reads, nor where the wrapped cursor ends up. */
  lemma {:induction false} ErasedForwards(u: State, n: nat, fuel: nat)
    ensures Pulls(Erased(u), n, fuel) <==> Pulls(u, n, fuel)
    ensures Pulls(u, n, fuel) ==>
      && Outputs(Erased(u), n, fuel) == Outputs(u, n, fuel)
      && Drained(Erased(u), n, fuel) == Erased(Drained(u, n, fuel))
      && (Finishes(Erased(u), n, fuel) <==> Finishes(u, n, fuel))
    decreases n
  {
    if n > 0 && !Done(u) && Readable(u) && Step(u, fuel).Some? {
      ErasedForwards(Step(u, fuel).value, n - 1, fuel);
    }
  }

  // ---------------------------------------------------------------------------
  // filter

  /** A step keeps every filter of the chain positioned on a match or on an
      exhausted upstream. */
  lemma {:induction false} StepKeepsPositioned(s: State, fuel: nat)
    requires Positioned(s) && Step(s, fuel).Some?
    ensures Positioned(Step(s, fuel).value)
    decreases Depth(s), 1, 0
  {
    match s
    case Take(u, _) => StepKeepsPositioned(u, fuel);
    case BudgetTake(u, _) => StepKeepsPositioned(u, fuel);
    case Transform(_, u) => StepKeepsPositioned(u, fuel);
    case Square(u) => StepKeepsPositioned(u, fuel);
    case Filter(p, u) =>
      StepKeepsPositioned(u, fuel);
      ScanKeepsPositioned(p, Step(u, fuel).value, fuel, fuel);
    case Erased(u) => StepKeepsPositioned(u, fuel);
    case _ =>
  }

  /** A scan over a positioned upstream lands on a positioned upstream. */
  lemma {:induction false} ScanKeepsPositioned(p: int -> bool, u: State, k: nat, fuel: nat)
    requires Positioned(u) && Scan(p, u, k, fuel).Some?
    ensures Positioned(Scan(p, u, k, fuel).value)
    decreases Depth(u) + 1, 0, k
  {
    if !(p(Get(u)) || Done(u)) {
      StepKeepsPositioned(u, fuel);
      ScanKeepsPositioned(p, Step(u, fuel).value, k - 1, fuel);
    }
  }

  /** Every element a positioned filter yields satisfies its predicate. */
  lemma {:induction false} FilterYieldsMatches(p: int -> bool, w: State, n: nat, fuel: nat)
    requires Readable(w) && (p(Get(w)) || Done(w))
    requires Pulls(Filter(p, w), n, fuel)
    ensures forall x :: x in Outputs(Filter(p, w), n, fuel) ==> p(x)
    decreases n
  {
    if n > 0 && !Done(w) {
      var w' := Step(Filter(p, w), fuel).value.up;
      FilterYieldsMatches(p, w', n - 1, fuel);
    }
  }

  /** Over an upstream that is exhausted within n rounds, and readable where it
      ends, a scan allowed to skip n elements succeeds, and it only skips
      elements that fail the predicate: what remains to be filtered after the
      scan is what remained before it, and it ends where the upstream would. */
  lemma {:induction false} ScanSkips(p: int -> bool, u: State, k: nat, fuel: nat, n: nat) returns (j: nat)
    requires Finishes(u, n, fuel) && n <= k && Readable(Drained(u, n, fuel))
    ensures Scan(p, u, k, fuel).Some?
    ensures j <= n && Finishes(Scan(p, u, k, fuel).value, n - j, fuel)
    ensures Drained(Scan(p, u, k, fuel).value, n - j, fuel) == Drained(u, n, fuel)
    ensures FilterSeq(p, Outputs(u, n, fuel)) == FilterSeq(p, Outputs(Scan(p, u, k, fuel).value, n - j, fuel))
    decreases k
  {
    if p(Get(u)) || Done(u) {
      j := 0;
    } else {
      assert n > 0;
      var u' := Step(u, fuel).value;
      var j' := ScanSkips(p, u', k - 1, fuel, n - 1);
      j := j' + 1;
      var rest := Outputs(u', n - 1, fuel);
      assert Outputs(u, n, fuel) == [Get(u)] + rest;
      assert ([Get(u)] + rest)[1..] == rest;
    }
  }

  /** Over an upstream exhausted within n rounds (and readable where it ends), a
      positioned filter whose scans may skip n elements is exhausted within n
      rounds too, and yields exactly the upstream's elements that satisfy the
      predicate, in their order. */
  lemma {:induction false} FilterKeepsMatches(p: int -> bool, w: State, n: nat, fuel: nat)
    requires Readable(w) && (p(Get(w)) || Done(w))
    requires Finishes(w, n, fuel) && n <= fuel && Readable(Drained(w, n, fuel))
    ensures Finishes(Filter(p, w), n, fuel)
    ensures Outputs(Filter(p, w), n, fuel) == FilterSeq(p, Outputs(w, n, fuel))
    decreases n
  {
    if !Done(w) {
      assert n > 0;
      var w1 := Step(w, fuel).value;
      var j := ScanSkips(p, w1, fuel, fuel, n - 1);
      var w2 := Scan(p, w1, fuel, fuel).value;
      assert Step(Filter(p, w), fuel) == Some(Filter(p, w2));
      FilterKeepsMatches(p, w2, n - 1 - j, fuel);
      FinishesExtend(Filter(p, w2), n - 1 - j, n - 1, fuel);
      var rest := Outputs(w1, n - 1, fuel);
      assert Outputs(w, n, fuel) == [Get(w)] + rest;
      assert ([Get(w)] + rest)[1..] == rest;
    }
  }

  /** filter(p)(c) over a cursor c exhausted within n rounds: construction
      succeeds, and the filter yields exactly c's matching elements, in order. */
  lemma FilterFromKeepsMatches(p: int -> bool, u: State, n: nat, fuel: nat)
    requires Finishes(u, n, fuel) && n <= fuel && Readable(Drained(u, n, fuel))
    ensures FilterFrom(p, u, fuel).Some?
    ensures Finishes(FilterFrom(p, u, fuel).value, n, fuel)
    ensures Outputs(FilterFrom(p, u, fuel).value, n, fuel) == FilterSeq(p, Outputs(u, n, fuel))
  {
    var j := ScanSkips(p, u, fuel, fuel, n);
    var w := Scan(p, u, fuel, fuel).value;
    FilterKeepsMatches(p, w, n - j, fuel);
    FinishesExtend(Filter(p, w), n - j, n, fuel);
  }

  /** The scan reads `get` before asking `done`: over the array cursor with no
      match left, it reads the element one past the array's end, so no scan
      succeeds there, whatever it may skip. */
  lemma {:induction false} ScanReadsPastEnd(p: int -> bool, data: seq<int>, i: nat, k: nat, fuel: nat)
    requires i <= |data|
    requires forall m :: i <= m < |data| ==> !p(data[m])
    ensures Scan(p, Concrete(data, i), k, fuel).None?
    decreases |data| - i
  {
    if i < |data| && k > 0 {
      ScanReadsPastEnd(p, data, i + 1, k - 1, fuel);
    }
  }

  // ---------------------------------------------------------------------------
  // The odd predicate

  /** `a % 2 == 1` with C++'s truncating remainder holds exactly for the positive
      odd numbers: for a negative odd a the remainder is -1. */
  lemma OddIsPositiveOdd(a: int)
    ensures Odd(a) <==> a > 0 && a % 2 == 1
  {
    if a < 0 {
      assert CRem(a, 2) == -((-a) % 2);
    }
  }

  /** v, v + 2, v + 4, ... (n elements) */
  function EverySecond(v: int, n: nat): (r: seq<int>)
    ensures |r| == n
    ensures forall i :: 0 <= i < n ==> r[i] == v + 2 * i
    decreases n
  {
    if n == 0 then [] else [v] + EverySecond(v + 2, n - 1)
  }

  /** filter(odd) positioned on an odd number v > 0 of numbers_from yields v,
      v + 2, ...: each step advances the counter once and the rescan skips the
      even number in between, so one skipped element per scan suffices. */
  lemma {:induction false} OddFilterCounts(v: int, n: nat)
    requires v > 0 && v % 2 == 1
    ensures Pulls(Filter(Odd, NumbersFrom(v)), n, 1)
    ensures Outputs(Filter(Odd, NumbersFrom(v)), n, 1) == EverySecond(v, n)
    ensures Drained(Filter(Odd, NumbersFrom(v)), n, 1) == Filter(Odd, NumbersFrom(v + 2 * n))
    decreases n
  {
    OddIsPositiveOdd(v);
    if n > 0 {
      OddIsPositiveOdd(v + 1);
      OddIsPositiveOdd(v + 2);
      assert Scan(Odd, NumbersFrom(v + 2), 0, 1) == Some(NumbersFrom(v + 2));
      assert Scan(Odd, NumbersFrom(v + 1), 1, 1) == Some(NumbersFrom(v + 2));
      assert Step(Filter(Odd, NumbersFrom(v)), 1) == Some(Filter(Odd, NumbersFrom(v + 2)));
      OddFilterCounts(v + 2, n - 1);
      assert !Done(Filter(Odd, NumbersFrom(v)));
      assert Get(Filter(Odd, NumbersFrom(v))) == v;
      assert Outputs(Filter(Odd, NumbersFrom(v)), n, 1)
          == [v] + Outputs(Filter(Odd, NumbersFrom(v + 2)), n - 1, 1);
    }
  }

  /** filter(odd) over numbers_from(v) for an even v > 0 starts on v + 1. */
  lemma OddFilterStarts(v: int)
    requires v > 0 && v % 2 == 0
    ensures FilterFrom(Odd, NumbersFrom(v), 1) == Some(Filter(Odd, NumbersFrom(v + 1)))
    ensures FilterFrom(Odd, NumbersFrom(v + 1), 1) == Some(Filter(Odd, NumbersFrom(v + 1)))
  {
    OddIsPositiveOdd(v);
    OddIsPositiveOdd(v + 1);
    assert !Odd(v) && Odd(v + 1);
    assert Scan(Odd, NumbersFrom(v + 1), 0, 1) == Some(NumbersFrom(v + 1));
    assert Step(NumbersFrom(v), 1) == Some(NumbersFrom(v + 1));
    assert Scan(Odd, NumbersFrom(v), 1, 1) == Some(NumbersFrom(v + 1));
    assert Scan(Odd, NumbersFrom(v + 1), 1, 1) == Some(NumbersFrom(v + 1));
  }
}
