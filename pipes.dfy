/** Composition of cursor algorithms: the pipe `operator|` and the variadic
    `compose`.

    In C++ `f | g` is resolved at compile time: when g is invocable on f the
    result is `g(f)` (application), otherwise it is the function x -> g(f(x))
    (composition).  Dafny has no overloading on invocability, so the two
    branches are the two functions `Apply` and `Then`; which one a pipe means is
    fixed by the types at each use, exactly as in the source. */
module Pipes {
  import opened CursorSpec
  import opened CursorLaws
  import opened Optional

  /** The application branch of `f | g`: g(f). */
  function Apply<A, B>(x: A, g: A -> B): B
  {
    g(x)
  }

  /** The composition branch of `f | g`: x -> g(f(x)). */
  function Then<A, B, C>(f: A -> B, g: B -> C): A -> C
  {
    x => g(f(x))
  }

  /** compose(f) = f; compose(f, gs...) = x -> f(compose(gs...)(x)).  The last
      function is applied first. */
  function Compose<T>(fs: seq<T -> T>): (T -> T)
    requires |fs| > 0
    decreases |fs|
  {
    if |fs| == 1 then fs[0]
    else
      var rest := Compose(fs[1..]);
      x => fs[0](rest(x))
  }

  /** `x | g0 | g1 | ...`: the pipeline applies its stages left to right. */
  function Pipeline<T>(x: T, gs: seq<T -> T>): T
    decreases |gs|
  {
    if gs == [] then x else Pipeline(gs[0](x), gs[1..])
  }

  function Reversed<T>(xs: seq<T>): (r: seq<T>)
    ensures |r| == |xs|
    ensures forall i :: 0 <= i < |xs| ==> r[i] == xs[|xs| - 1 - i]
    decreases |xs|
  {
    if xs == [] then [] else Reversed(xs[1..]) + [xs[0]]
  }

  /** One more stage at the end of a pipeline acts on its result. */
  lemma {:induction false} PipelineSnoc<T>(x: T, gs: seq<T -> T>, g: T -> T)
    ensures Pipeline(x, gs + [g]) == g(Pipeline(x, gs))
    decreases |gs|
  {
    if gs != [] {
      assert (gs + [g])[1..] == gs[1..] + [g];
      PipelineSnoc(gs[0](x), gs[1..], g);
    }
  }

  /** compose(f1, ..., fk)(x) is the pipeline x | fk | ... | f1. */
  lemma {:induction false} ComposeIsReversedPipeline<T>(fs: seq<T -> T>, x: T)
    requires |fs| > 0
    ensures Compose(fs)(x) == Pipeline(x, Reversed(fs))
    decreases |fs|
  {
    if |fs| == 1 {
      assert Reversed(fs) == [fs[0]];
    } else {
      ComposeIsReversedPipeline(fs[1..], x);
      assert Reversed(fs) == Reversed(fs[1..]) + [fs[0]];
      PipelineSnoc(x, Reversed(fs[1..]), fs[0]);
    }
  }

  /** The composition branch of the later pipe is `compose(g, f)`: the two
      spellings agree. */
  lemma ThenIsCompose<T>(f: T -> T, g: T -> T, x: T)
    ensures Then(f, g)(x) == Compose([g, f])(x)
  {
    assert [g, f][1..] == [f];
  }

  // ---------------------------------------------------------------------------
  // Cursor algorithms as functions from chain to chain

  /** take(n) */
  function TakeStage(n: int): State -> State
  {
    s => Take(s, n)
  }

  /** take(n) of 02_05_examples_sid: counts only its budget */
  function BudgetTakeStage(n: int): State -> State
  {
    s => BudgetTake(s, n)
  }

  /** dump as a stage: what it prints, provided the chain is done within `bound`
      rounds (None otherwise). */
  function DumpStage(bound: nat, fuel: nat): State -> Option<seq<int>>
  {
    s => if Finishes(s, bound, fuel) then Some(Outputs(s, bound, fuel)) else None
  }

  /** `constexpr auto take_and_dump = take(n) | dump; x | take_and_dump;`: the
      composition branch builds x -> dump(take(n)(x)), and applying it to any
      chain that can be pulled n times prints its first n elements, or all of
      them when it ends sooner. */
  lemma TakeAndDumpPipe(x: State, n: nat, fuel: nat)
    requires Pulls(x, n, fuel)
    ensures Apply(x, Then(TakeStage(n), DumpStage(n, fuel))) == Some(Outputs(x, n, fuel))
  {
    TakeIsPrefix(x, n, n, fuel);
    TakeFinishes(x, n, fuel);
  }

  /** The same with the later take: `range(100, 120) | (take(10) | dump)` and any
      chain that yields at least n elements print its first n. */
  lemma BudgetTakeAndDumpPipe(x: State, n: nat, fuel: nat)
    requires Pulls(x, n, fuel) && |Outputs(x, n, fuel)| == n
    ensures Apply(x, Then(BudgetTakeStage(n), DumpStage(n, fuel))) == Some(Outputs(x, n, fuel))
  {
    BudgetTakeIsPrefix(x, n, n, fuel);
  }

  /** transform(f) */
  function TransformStage(f: int -> int): State -> State
  {
    s => Transform(f, s)
  }

  /** squared = transform([](auto a) { return a * a; }) */
  function Squared(): State -> State
  {
    TransformStage(Sq)
  }

  /** numbers_from(v) | squared | take(n) | squared yields the fourth powers of
      v, ..., v + n - 1 and is then done. */
  lemma {:induction false} SquaresOfTake(v: int, n: nat, fuel: nat)
    ensures var s := Transform(Sq, Take(Transform(Sq, NumbersFrom(v)), n));
      Finishes(s, n, fuel) && Outputs(s, n, fuel) == MapSeq(Sq, MapSeq(Sq, Interval(v, n)))
  {
    var inner := Transform(Sq, NumbersFrom(v));
    NumbersFromCounts(v, n, fuel);
    TransformMaps(Sq, NumbersFrom(v), n, fuel);
    TakeIsPrefix(inner, n, n, fuel);
    TakeFinishes(inner, n, fuel);
    TransformMaps(Sq, Take(inner, n), n, fuel);
  }

  /** `auto algo = squared | take(5) | squared;` applied to numbers_from(2)
      builds transform(sq)(take(5)(transform(sq)(numbers_from(2)))). */
  lemma AlgoChain()
    ensures Apply(NumbersFrom(2), Then(Then(Squared(), TakeStage(5)), Squared()))
         == Transform(Sq, Take(Transform(Sq, NumbersFrom(2)), 5))
  {
  }

  /** ... and `numbers_from(2) | algo | dump` prints 16, 81, 256, 625, 1296, after
      which the chain is done. */
  lemma SquaredTakeSquared(fuel: nat)
    ensures var s := Transform(Sq, Take(Transform(Sq, NumbersFrom(2)), 5));
      Finishes(s, 5, fuel) && Outputs(s, 5, fuel) == [16, 81, 256, 625, 1296]
  {
    SquaresOfTake(2, 5, fuel);
    FourthPowers();
  }

  lemma FourthPowers()
    ensures MapSeq(Sq, MapSeq(Sq, Interval(2, 5))) == [16, 81, 256, 625, 1296]
  {
  }

  // compose(f, gs...)(x) = f(compose(gs...)(x)), one unfolding of Compose
  lemma ComposeUnfolds<T>(fs: seq<T -> T>, x: T)
    requires |fs| > 1
    ensures Compose(fs)(x) == fs[0](Compose(fs[1..])(x))
  {
  }

  /** compose(f, g, h) applies h, then g, then f. */
  lemma ComposeThree<T>(f: T -> T, g: T -> T, h: T -> T, x: T)
    ensures Compose([f, g, h])(x) == f(g(h(x)))
  {
    ComposeUnfolds([f, g, h], x);
    assert [f, g, h][1..] == [g, h];
    ComposeUnfolds([g, h], x);
    assert [g, h][1..] == [h];
  }

  /** numbers_from(v) | squared | take(n) | squared with the later take: the
      budget alone ends it after the fourth powers of v, ..., v + n - 1. */
  lemma {:induction false} SquaresOfBudgetTake(v: int, n: nat, fuel: nat)
    ensures var s := Transform(Sq, BudgetTake(Transform(Sq, NumbersFrom(v)), n));
      Finishes(s, n, fuel) && Outputs(s, n, fuel) == MapSeq(Sq, MapSeq(Sq, Interval(v, n)))
  {
    var inner := Transform(Sq, NumbersFrom(v));
    NumbersFromCounts(v, n, fuel);
    TransformMaps(Sq, NumbersFrom(v), n, fuel);
    BudgetTakeIsPrefix(inner, n, n, fuel);
    TransformMaps(Sq, BudgetTake(inner, n), n, fuel);
  }

  /** `compose(squared, take(10), squared)(numbers_from(42))` builds the same
      chain as `numbers_from(42) | squared | take(10) | squared`, with the take
      of 02_05_examples_sid; `dump` of it prints the fourth powers of 42, ...,
      51, after which the chain is done. */
  lemma ComposedSquares(fuel: nat)
    ensures var s := Compose([Squared(), BudgetTakeStage(10), Squared()])(NumbersFrom(42));
      && s == Apply(Apply(Apply(NumbersFrom(42), Squared()), BudgetTakeStage(10)), Squared())
      && s == Transform(Sq, BudgetTake(Transform(Sq, NumbersFrom(42)), 10))
      && DumpStage(10, fuel)(s) == Some(MapSeq(Sq, MapSeq(Sq, Interval(42, 10))))
  {
    ComposeThree(Squared(), BudgetTakeStage(10), Squared(), NumbersFrom(42));
    SquaresOfBudgetTake(42, 10, fuel);
  }
}
