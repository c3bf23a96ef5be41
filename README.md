# Cursors, expression trees and data-oriented benchmark helpers, verified

This project models the executable core of a C++ course repository in Dafny and proves what the code promises.

- **The cursor library** (modules `CursorSpec`, `CursorLaws`, `CursorObjects`, `Pipes`, `CursorScenarios`).
  - A cursor is a single-pass, pull-based sequence with `get`, `done` and `next`.
  - The sources are `numbers_from`, `range`, the fixed array cursor and the adopted foreign `NumbersFrom`.
  - The adapters are the two `take`s (the later one also stops when its upstream is done; the earlier one counts only its budget), `transform`/`squared`, `square_impl`, `filter` and the type-erased `any_cursor`.
  - The consumers are `dump` and `to_vector`, and the pipe `operator|` and the variadic `compose` combine the stages.
  - Every chain has an abstract value, the datatype `CursorSpec.State`.
  - The heap class `CursorObjects.Cursor` is proved against `Done`/`Get`/`Step` on that value.
  - The adapters of `cursor.hpp` and the filter solution hold a *reference* to an lvalue upstream, so that source is advanced in place, as the scenarios of the `main` programs show. The adapters of `02_05_examples_sid` and `any_cursor` own a moved copy; the model lets them hold the upstream object, which is always a temporary at their call sites.
  - A filter's rescan may not end. It is bounded by a ghost `fuel`: the number of elements one scan may skip.
- **`Ast`**: the `lit`/`add`/`mul` tree and its recursive `eval`, with the recursion depth equal to the tree height.
- **`MathFunctions`**: the unsigned `Factorial`, with its 32-bit wrap-around written out.
- **`DramBlockSize`**: `OffsetGenerator`, the row/column-shuffled offset sequence. It is a permutation of the grid in every round.
- **`DramCoherence`**: `Sum` over an index functor, `LinearIndices` and `ClusteredIndices`.
- **`DramBurstMode`**: `sum_all` and `sum_every_8th`, with their 32-bit mask.
- **`CacheBlockSize`**: `GetBlockSizes`, with `size_t` wrap-around of the intermediate products.
- **`FalseSharing`**: `get_my_values`, the thread slice of the data.
- **`CacheFalseSharing`**: `partition_values` and `do_sum`, plus both benchmark drivers with their threads run one after another.

Randomness is made into parameters. Each `std::ranges::shuffle` becomes a constructor argument that must be a permutation (`DramBlockSize.IsPermutation`). Printing is made into a result: `dump` returns the sequence of values it would print. In the table below, `a → b` stands for the C++ pipe `a | b`.

## Model

| member | source | states |
|---|---|---|
| CursorSpec.Done | 02_05_example_concept_based_design/code/cursor.hpp:13-22 | `done`: the source's own `done`, or `false` for a source without one (the fallback); an adapter asks its upstream. Its laws are the `*Yields`/`*Counts` lemmas of CursorLaws |
| CursorSpec.Readable | 02_05_example_concept_based_design/code/cursor.hpp:26-28 | where `get` is defined: everywhere except past the end of the array cursor |
| CursorSpec.Get | 02_05_example_concept_based_design/code/cursor.hpp:26-28 | `get`: the current element of a source, the image of the upstream's under transform/square, and the upstream's otherwise |
| CursorSpec.Step | 02_05_example_concept_based_design/code/cursor.hpp:124-181 | `next` of every cursor shape keeps the chain's shape: a defined step yields a chain of the same depth (sources bump their counter, take decrements its budget, adapters step their upstream, filter steps then rescans) |
| CursorSpec.Scan | 02_05_example_concept_based_design/code/sol1_filter.cpp:8-11 | a finished `advance_to_next` leaves the upstream at the same depth, readable, and on an element satisfying the predicate or exhausted |
| CursorSpec.FilterFrom | 02_05_example_concept_based_design/code/sol1_filter.cpp:14-18 | the state filter(p)(c) is constructed in, after the constructor's scan to the first match; its properties are CursorLaws.FilterFromKeepsMatches and CursorLaws.OddFilterStarts |
| CursorLaws.PullsPrefix | 02_05_example_concept_based_design/code/cursor.hpp:191-196 | a consumer that can run n rounds can run any fewer |
| CursorLaws.FinishesExtend | 02_05_example_concept_based_design/code/cursor.hpp:100-108 | once a cursor is done within n rounds, more rounds read nothing further and leave it where it was |
| CursorLaws.RoundUnfolds | 02_05_example_concept_based_design/code/sol2_to_vector.cpp:8-11 | one round of a consumer on a cursor that finishes and is not done reads `get`, takes a defined step, and leaves a cursor that finishes in one round fewer, with the same remaining outputs and end state |
| CursorLaws.NumbersFromCounts | 02_05_example_concept_based_design/code/cursor.hpp:123-133 | numbers_from(v) is never done (the `cursor_done(...)` fallback answers false); n rounds read v, ..., v+n-1 and leave the counter at v+n |
| CursorLaws.AdoptedCounts | 02_05_examples_sid/code/cursor.cpp:228-257 | the adopted foreign `NumbersFrom` behaves like numbers_from: n rounds read v, ..., v+n-1 and leave v+n |
| CursorLaws.AdoptedBudgetTake | 02_05_examples_sid/code/cursor.cpp:102-106 | the budget-only take(n) over the adopted counter from v finishes within n rounds, reads v, ..., v+n-1 and leaves the wrapper's counter at v+n |
| CursorLaws.RangeYields | 02_05_examples_sid/code/cursor.cpp:67-75 | range(start, stop) yields start, start+1, ...; n rounds read the first min(n, stop-start) and the range is done after n rounds iff n >= stop-start |
| CursorLaws.ConcreteYields | 02_05_examples_sid/code/cursor.cpp:13-23 | the array cursor yields its array from index i to the end and is then done |
| CursorLaws.TakeIsPrefix | 02_05_example_concept_based_design/code/cursor.hpp:136-160 | take(left) reads exactly the first min(n, left) elements the upstream gives in n rounds, and advances the upstream by exactly as many steps, decrementing the budget once per step |
| CursorLaws.TakeFinishes | 02_05_example_concept_based_design/code/cursor.hpp:153-155 | take(left) is done within left rounds over any upstream that can be pulled that often; take(0) is done before any `get` |
| CursorLaws.TakeOfEndlessYieldsN | 02_05_example_concept_based_design/code/cursor.hpp:146-155 | over an upstream yielding at least n elements, take(n) yields exactly n and is then done |
| CursorLaws.TakeFromNumbers | 02_05_example_concept_based_design/code/cursor.cpp:111-135 | take(n) over numbers_from(v) reads v, ..., v+n-1 and ends with the counter at v+n and the budget spent |
| CursorLaws.TakeTransformedNumbers | 02_05_example_concept_based_design/code/cursor.cpp:137-162 | take(n) over transform(f)(numbers_from(v)) reads f(v), ..., f(v+n-1) |
| CursorLaws.BudgetTakeIsPrefix | 02_05_examples_sid/code/cursor.cpp:87-106 | the budget-only take reads the first min(n, left) elements of an upstream that yields n |
| CursorLaws.BudgetTakeReadsPastEnd | 02_05_examples_sid/code/cursor.cpp:97-99 | the budget-only take ignores upstream `done`: over an array cursor shorter than the budget it is not done at the array's end, where its `get` is out of bounds |
| CursorLaws.TransformMaps | 02_05_example_concept_based_design/code/cursor.hpp:162-187 | transform(f) reads f of each upstream element and moves exactly as its upstream: its outputs are the upstream's outputs mapped by f |
| CursorLaws.SquareMaps | 02_05_examples_sid/code/cursor.cpp:112-127 | square_impl reads get*get of each upstream element and moves as its upstream |
| CursorLaws.SquareIsSquared | 02_05_examples_sid/code/cursor.cpp:154 | square_impl and `squared = transform(a*a)` yield the same elements |
| CursorLaws.ErasedForwards | 02_05_example_concept_based_design/code/cursor.hpp:54-91 | any_cursor is transparent: same pullable rounds, same outputs, same final position of the wrapped cursor |
| CursorLaws.StepKeepsPositioned | 02_05_example_concept_based_design/code/sol1_filter.cpp:27-30 | a `next` keeps every filter in the chain positioned on a match or on an exhausted upstream |
| CursorLaws.ScanKeepsPositioned | 02_05_example_concept_based_design/code/sol1_filter.cpp:8-11 | a scan over a positioned upstream lands on a positioned upstream |
| CursorLaws.FilterYieldsMatches | 02_05_example_concept_based_design/code/sol1_filter.cpp:21-30 | every element a positioned filter yields satisfies its predicate |
| CursorLaws.ScanSkips | 02_05_example_concept_based_design/code/sol1_filter.cpp:8-11 | over an upstream exhausted within n rounds a scan succeeds and skips only failing elements: what is left to filter, and where it ends, are unchanged |
| CursorLaws.FilterKeepsMatches | 02_05_example_concept_based_design/code/sol1_filter.cpp:21-30 | a positioned filter over an upstream exhausted within n rounds is exhausted within n rounds and yields exactly the upstream's matching elements, in order |
| CursorLaws.FilterFromKeepsMatches | 02_05_example_concept_based_design/code/sol1_filter.cpp:14-18 | filter(p)(c) for c exhausted within n rounds: construction succeeds and the filter yields exactly c's matches, in order |
| CursorLaws.ScanReadsPastEnd | 02_05_example_concept_based_design/code/sol1_filter.cpp:9 | the scan evaluates `get` before `done`: over the array cursor with no match left it reads one past the end, so no scan there is defined |
| CursorLaws.OddIsPositiveOdd | 02_05_example_concept_based_design/code/sol1_filter.cpp:43 | `a % 2 == 1` with C++'s truncating remainder holds exactly for the positive odd numbers |
| CursorLaws.EverySecond | 02_05_example_concept_based_design/code/sol1_filter.cpp:47 | v, v+2, ...: n elements, the i-th being v+2i |
| CursorLaws.OddFilterCounts | 02_05_example_concept_based_design/code/sol1_filter.cpp:43-47 | filter(odd) positioned on an odd v > 0 of numbers_from yields v, v+2, ..., each rescan skipping one even number |
| CursorLaws.OddFilterStarts | 02_05_example_concept_based_design/code/sol1_filter.cpp:14-18 | filter(odd) built over numbers_from(v) for an even v > 0 starts on v+1 |
| CursorObjects.ForeignNumbersFrom.constructor | 02_05_examples_sid/code/cursor.cpp:228-236 | the foreign counter starts at the given value |
| CursorObjects.ForeignNumbersFrom.Get | 02_05_examples_sid/code/cursor.cpp:233 | `Get` returns value_ |
| CursorObjects.ForeignNumbersFrom.Done | 02_05_examples_sid/code/cursor.cpp:235 | `Done` is always false |
| CursorObjects.ForeignNumbersFrom.Next | 02_05_examples_sid/code/cursor.cpp:234 | `Next` increments value_ by one |
| CursorObjects.Cursor.NumbersFrom | 02_05_example_concept_based_design/code/cursor.hpp:123-133 | a fresh numbers_from object whose value is NumbersFrom(value) |
| CursorObjects.Cursor.Range | 02_05_examples_sid/code/cursor.cpp:67-75 | a fresh range object whose value is Range(start, stop) |
| CursorObjects.Cursor.VeryConcrete | 02_05_examples_sid/code/cursor.cpp:13-16 | a fresh array cursor on {1, 2, 3, 4, 5} at index 0 |
| CursorObjects.Cursor.Adopt | 02_05_examples_sid/code/cursor.cpp:241-255 | `adopted_numbers_from{ {value} }`: a fresh wrapper owning its own foreign counter, whose value is Adopted(value) |
| CursorObjects.Cursor.Take | 02_05_example_concept_based_design/code/cursor.hpp:158-160 | take(n)(c) holds c itself as upstream; its value is Take(c's value, n) |
| CursorObjects.Cursor.BudgetTake | 02_05_examples_sid/code/cursor.cpp:102-106 | the budget-only take holds c as upstream; its value is BudgetTake(c's value, n) |
| CursorObjects.Cursor.Transform | 02_05_example_concept_based_design/code/cursor.hpp:183-187 | transform(f)(c) holds c as upstream; its value is Transform(f, c's value) |
| CursorObjects.Cursor.Square | 02_05_examples_sid/code/cursor.cpp:112-127 | square_impl{c} holds c as upstream; its value is Square(c's value) |
| CursorObjects.Cursor.AnyCursor | 02_05_example_concept_based_design/code/cursor.hpp:81-82 | any_cursor<int>(c) holds c as upstream; its value is Erased(c's value) |
| CursorObjects.Cursor.Filter | 02_05_example_concept_based_design/code/sol1_filter.cpp:14-18 | the constructor scans c to its first match (or its end); the value is FilterFrom applied to c's old value |
| CursorObjects.Cursor.Done | 02_05_example_concept_based_design/code/cursor.hpp:13-22 | the heap `done` equals `Done` of the object's value; a source without `done` answers false |
| CursorObjects.Cursor.Get | 02_05_example_concept_based_design/code/cursor.hpp:26-28 | the heap `get` equals `Get` of the object's value |
| CursorObjects.Cursor.Next | 02_05_example_concept_based_design/code/cursor.hpp:23-25 | the heap `next` moves the object's value to `Step` of its old value, so CursorLaws.StepKeepsPositioned applies to it |
| CursorObjects.AdvanceToNext | 02_05_example_concept_based_design/code/sol1_filter.cpp:8-11 | the loop leaves the upstream at `Scan` of its old value |
| CursorObjects.ToVector | 02_05_example_concept_based_design/code/sol2_to_vector.cpp:6-12 | to_vector returns the cursor's outputs up to its first `done`, in order, and leaves it drained |
| CursorObjects.Dump | 02_05_example_concept_based_design/code/cursor.cpp:166-170 | dump prints the outputs up to the first `done`, in order, checking `done` before each `get`, and leaves the cursor drained |
| Pipes.Apply | 02_05_example_concept_based_design/code/cursor.hpp:42-45 | the application branch of `f \| g`: g(f) |
| Pipes.Then | 02_05_example_concept_based_design/code/cursor.hpp:46-50 | the composition branch of `f \| g`: x -> g(f(x)); Pipes.ThenIsCompose relates it to compose |
| Pipes.Compose | 02_05_examples_sid/code/cursor.cpp:159-167 | compose(f) = f and compose(f, gs...) = x -> f(compose(gs...)(x)); Pipes.ComposeIsReversedPipeline states what it computes |
| Pipes.Pipeline | 02_05_examples_sid/code/cursor.cpp:170-178 | `x \| g0 \| g1 \| ...` applies the stages left to right |
| Pipes.Reversed | 02_05_examples_sid/code/cursor.cpp:164-167 | the reversed stage list: same length, i-th element is the (len-1-i)-th |
| Pipes.PipelineSnoc | 02_05_examples_sid/code/cursor.cpp:172-178 | a stage appended to a pipeline acts on the pipeline's result |
| Pipes.ComposeIsReversedPipeline | 02_05_examples_sid/code/cursor.cpp:159-167 | compose(f1, ..., fk)(x) equals the pipeline x → fk → ... → f1 |
| Pipes.ThenIsCompose | 02_05_examples_sid/code/cursor.cpp:177 | the composition branch of the pipe, x -> g(f(x)), equals compose(g, f) |
| Pipes.TakeStage | 02_05_example_concept_based_design/code/cursor.hpp:158-160 | take(n) as a function from chain to chain |
| Pipes.BudgetTakeStage | 02_05_examples_sid/code/cursor.cpp:102-106 | the later take(n) as a function from chain to chain |
| Pipes.TransformStage | 02_05_example_concept_based_design/code/cursor.hpp:183-187 | transform(f) as a function from chain to chain |
| Pipes.Squared | 02_05_examples_sid/code/cursor.cpp:154 | squared = transform(a -> a * a) |
| Pipes.DumpStage | 02_05_example_concept_based_design/code/cursor.cpp:166-170 | dump as a stage: the printed values when the chain is done within the bound |
| Pipes.TakeAndDumpPipe | 02_05_example_concept_based_design/code/cursor.cpp:181-182 | `x \| (take(n) \| dump)` with the composition branch prints the first n elements of any chain that can be pulled n times, or all of them when it ends sooner, and stops |
| Pipes.BudgetTakeAndDumpPipe | 02_05_examples_sid/code/cursor.cpp:284-285 | `x \| (take(n) \| dump)` with the later take prints the first n elements of any chain that yields at least n, and stops |
| Pipes.SquaresOfTake | 02_05_example_concept_based_design/code/test_cursor.cpp:21-22 | numbers_from(v) → squared → take(n) → squared yields the fourth powers of v, ..., v+n-1 and is then done |
| Pipes.AlgoChain | 02_05_example_concept_based_design/code/test_cursor.cpp:21 | `squared → take(5) → squared` applied to numbers_from(2) builds transform(sq)(take(5)(transform(sq)(numbers_from(2)))) |
| Pipes.SquaredTakeSquared | 02_05_example_concept_based_design/code/test_cursor.cpp:22 | that chain yields 16, 81, 256, 625, 1296 and is then done |
| Pipes.FourthPowers | 02_05_example_concept_based_design/code/test_cursor.cpp:22 | the fourth powers of 2..6 are 16, 81, 256, 625, 1296 |
| Pipes.SquaresOfBudgetTake | 02_05_examples_sid/code/cursor.cpp:275 | squared(take(n)(squared(numbers_from(v)))) with the later take yields the fourth powers of v, ..., v+n-1 and is then done, its budget alone ending it |
| Pipes.ComposeThree | 02_05_examples_sid/code/cursor.cpp:164-167 | compose(f, g, h) applies h, then g, then f |
| Pipes.ComposedSquares | 02_05_examples_sid/code/cursor.cpp:278-279 | compose(squared, take(10), squared)(numbers_from(42)), with the later take, builds numbers_from(42) → squared → take(10) → squared, and dump of it prints the fourth powers of 42, ..., 51 and stops |
| CursorScenarios.TakeAndDump | 02_05_example_concept_based_design/code/cursor.cpp:181 | `c → take_and_dump` prints c's first n outputs and leaves c itself advanced past them |
| CursorScenarios.TakeAndDumpFromMinusFive | 02_05_example_concept_based_design/code/cursor.cpp:182 | prints -5, -4, -3, -2, -1 |
| CursorScenarios.SharedTakeAndDump | 02_05_example_concept_based_design/code/cursor.cpp:183-188 | on a shared numbers_from(v) (v = 0 and k = 5 in the source): the first take(k) dump prints v, ..., v+k-1 and leaves the counter at v+k, so `n → squared → take(k)` then prints the squares of v+k, ..., v+2k-1 |
| CursorScenarios.SquaresFromFive | 02_05_example_concept_based_design/code/cursor.cpp:187 | for v = 0, k = 5 the second dump prints 25, 36, 49, 64, 81 |
| CursorScenarios.AnyCursorOfTake | 02_05_example_concept_based_design/code/cursor.cpp:198-199 | `any_cursor<int>(numbers_from(42) → take(2))` dumps 42, 43 |
| CursorScenarios.AnyCursorOfTakeYields | 02_05_example_concept_based_design/code/cursor.cpp:198-199 | the erased take(2) over numbers_from(42) finishes within two rounds, reading 42, 43 |
| CursorScenarios.OddThenTake | 02_05_example_concept_based_design/code/sol1_filter.cpp:47 | numbers_from(2) → odd → take(5) prints 3, 5, 7, 9, 11 |
| CursorScenarios.OddThenTakeYields | 02_05_example_concept_based_design/code/sol1_filter.cpp:47 | take(5) over the odd filter positioned on 3 finishes within five rounds, reading 3, 5, 7, 9, 11 |
| CursorScenarios.TakeThenOdd | 02_05_example_concept_based_design/code/sol1_filter.cpp:48-49 | numbers_from(v) → take(n) → odd prints exactly the odd numbers among v, ..., v+n-1, in order |
| CursorScenarios.OddFromTwo | 02_05_example_concept_based_design/code/sol1_filter.cpp:48 | the odd elements of 2..6 are 3, 5 |
| CursorScenarios.OddFromThree | 02_05_example_concept_based_design/code/sol1_filter.cpp:49 | the odd elements of 3..7 are 3, 5, 7 |
| CursorScenarios.SharedOddTakeTwo | 02_05_example_concept_based_design/code/sol1_filter.cpp:51-53 | on a shared n = numbers_from(v), odd v > 1 (3 in the source), two runs of `n → odd → take(2) → dump` print v, v+2 and then v+4, v+6 |
| CursorScenarios.OddTakeTwoAndDump | 02_05_example_concept_based_design/code/sol1_filter.cpp:52 | one run of `n → odd → take(2) → dump` on n at an odd v > 1 prints v, v+2 and leaves n at v+4 |
| CursorScenarios.OddTakeTwo | 02_05_example_concept_based_design/code/sol1_filter.cpp:52 | two rounds of the odd filter positioned on odd v read v, v+2 and leave it positioned on v+4 |
| CursorScenarios.TakeToVector | 02_05_example_concept_based_design/code/sol2_to_vector.cpp:18-21 | numbers_from(2) → take(5) → to_vector is [2, 3, 4, 5, 6] |
| CursorScenarios.TakeToVectorYields | 02_05_example_concept_based_design/code/sol2_to_vector.cpp:18-21 | take(5) over numbers_from(2) finishes within five rounds, reading 2, ..., 6 |
| CursorScenarios.TakeZeroToVector | 02_05_example_concept_based_design/code/sol2_to_vector.cpp:8-11 | an already-done cursor, take(0), gives the empty vector |
| CursorScenarios.DumpVeryConcrete | 02_05_examples_sid/code/cursor.cpp:261 | dump(a_very_concrete_cursor{}) prints 1, 2, 3, 4, 5 |
| CursorScenarios.DumpRange | 02_05_examples_sid/code/cursor.cpp:263 | dump(range(2, 5)) prints 2, 3, 4 |
| CursorScenarios.DumpBudgetTake | 02_05_examples_sid/code/cursor.cpp:267 | dump(take(n)(numbers_from(v))) prints v, ..., v+n-1 (7..16 in the source) |
| CursorScenarios.DumpTakeOfSquares | 02_05_examples_sid/code/cursor.cpp:269 | dump(take(n)(square_impl(numbers_from(v)))) prints the squares of v, ..., v+n-1 (4 to 121 in the source) |
| CursorScenarios.DumpRangeTakeTen | 02_05_examples_sid/code/cursor.cpp:284-285 | over any range at least ten long, take_10_and_dump prints its first ten elements (100..109 for range(100, 120)) |
| CursorScenarios.DumpAnyRange | 02_05_examples_sid/code/cursor.cpp:294-295 | any_cursor<int>{range(start, stop)} dumps start, ..., stop-1 (10..19 in the source) |
| CursorScenarios.DumpAdoptedTake | 02_05_examples_sid/code/cursor.cpp:241-257 | take(n) over an adopted counter from v (a wrapper the file declares but `main` never builds) prints v, ..., v+n-1 and leaves the wrapper's own counter at v+n |
| Ast.Eval | 02_01_functional_generic_utilities/code/ast.cpp:36-43 | eval: a literal's value, or the sum or product of the two operands' values; Ast.EvalDepthIsHeight proves it is what the bounded recursion computes |
| Ast.EvalDepthIsHeight | 02_01_functional_generic_utilities/code/ast.cpp:36-43 | eval terminates and its recursion depth is exactly the tree height: with that many frames it yields the value, with fewer it cannot finish |
| Ast.ExampleIsEighteen | 02_01_functional_generic_utilities/code/ast.cpp:46-47 | add(lit 3, mul(lit 5, lit 3)) evaluates to 18, using three frames |
| MathFunctions.Factorial | 01_02_infrastructure_resources/code/cpp-example/MathFunctions/MathFunctions.cxx:8-10 | `number <= 1 ? number : Factorial(number - 1) * number` with the product taken modulo 2^32; MathFunctions.FactorialIsFactModulo states what it computes |
| MathFunctions.Fact | 01_02_infrastructure_resources/code/cpp-example/MathFunctions/MathFunctions.cxx:8-10 | the mathematical factorial, the reference for Factorial, is at least 1 |
| MathFunctions.FactorialIsFactModulo | 01_02_infrastructure_resources/code/cpp-example/MathFunctions/MathFunctions.cxx:9 | for n >= 1, Factorial(n) is n! modulo 2^32 |
| MathFunctions.FactorialOfZero | 01_02_infrastructure_resources/code/cpp-example/MathFunctions/MathFunctions.cxx:9 | Factorial(0) is 0, not 0! = 1 |
| MathFunctions.FactGrows | 01_02_infrastructure_resources/code/cpp-example/MathFunctions/MathFunctions.cxx:9 | n! is monotone in n |
| MathFunctions.FactorialExactUpToTwelve | 01_02_infrastructure_resources/code/cpp-example/MathFunctions/MathFunctions.cxx:8-10 | for 1 <= n <= 12 Factorial(n) is exactly n! |
| MathFunctions.FactorialOfThirteenWraps | 01_02_infrastructure_resources/code/cpp-example/MathFunctions/MathFunctions.cxx:9 | Factorial(13) wraps to 1932053504, 13! - 2^32 |
| MathFunctions.FactorialTestCases | 01_02_infrastructure_resources/code/cpp-example/MathFunctions/test_MathFunctions.cxx:7-10 | Factorial(1) = 1, (2) = 2, (3) = 6, (10) = 3628800 |
| DramBlockSize.IdentityIsPermutation | 03_01_data_oriented_design/code/dram_block_size.cpp:23-24 | the iota table 0..n-1 is a permutation of 0..n-1 |
| DramBlockSize.Truncate16 | 03_01_data_oriented_design/code/dram_block_size.cpp:48 | a table stored as uint16_t keeps each entry modulo 2^16 |
| DramBlockSize.Truncate32 | 03_01_data_oriented_design/code/dram_block_size.cpp:49 | a table stored as uint32_t keeps each entry modulo 2^32 |
| DramBlockSize.RowShuffleFitsUpTo65536 | 03_01_data_oriented_design/code/dram_block_size.cpp:74 | up to the driver's 65536 rows the uint16_t row table holds the permutation unchanged |
| DramBlockSize.RowShuffleCollidesAbove65536 | 03_01_data_oriented_design/code/dram_block_size.cpp:48 | above 65536 rows the uint16_t row table is no longer a permutation |
| DramBlockSize.ColumnShuffleFitsUpTo2To32 | 03_01_data_oriented_design/code/dram_block_size.cpp:30 | up to 2^32 columns the `uint32_t` column table holds the permutation unchanged |
| DramBlockSize.OffsetAt | 03_01_data_oriented_design/code/dram_block_size.cpp:34-42 | the offset of the k-th call: R * columns[(k / R) mod C] + rows[k mod R] |
| DramBlockSize.OffsetInRange | 03_01_data_oriented_design/code/dram_block_size.cpp:35 | every offset lies in [0, rowSize*columnSize) |
| DramBlockSize.OffsetPeriodic | 03_01_data_oriented_design/code/dram_block_size.cpp:36-40 | the offset sequence repeats with period rowSize*columnSize |
| DramBlockSize.OffsetInjective | 03_01_data_oriented_design/code/dram_block_size.cpp:35 | within one round of rowSize*columnSize calls no offset repeats |
| DramBlockSize.OffsetCovers | 03_01_data_oriented_design/code/dram_block_size.cpp:35 | every index of [0, rowSize*columnSize) is returned within the first round |
| DramBlockSize.FirstRound | 03_01_data_oriented_design/code/dram_block_size.cpp:34-42 | the first round: rowSize*columnSize offsets, the k-th being the k-th call's |
| DramBlockSize.FirstRoundIsPermutation | 03_01_data_oriented_design/code/dram_block_size.cpp:23-40 | for any row and column permutations, the first R*C offsets list each index of the grid exactly once; GeneratorRoundsArePermutations extends this to the constructor's tables and to every later round |
| DramBlockSize.Round | 03_01_data_oriented_design/code/dram_block_size.cpp:34-42 | the offsets of the R*C calls from call s on |
| DramBlockSize.OffsetModPeriod | 03_01_data_oriented_design/code/dram_block_size.cpp:36-40 | call k returns what call k mod R*C returned |
| DramBlockSize.RotationIsPermutation | 03_01_data_oriented_design/code/dram_block_size.cpp:36-40 | a permutation of [0, N) read cyclically from any start is a permutation |
| DramBlockSize.RoundIsPermutation | 03_01_data_oriented_design/code/dram_block_size.cpp:34-42 | from any call s on, the next R*C calls return every index of [0, R*C) exactly once |
| DramBlockSize.GeneratorRoundsArePermutations | 03_01_data_oriented_design/code/dram_block_size.cpp:20-42 | with the tables the constructor fills (`uint16_t` rows, `uint32_t` columns) and at most 65536 rows and 2^32 columns, every R*C consecutive calls return every index of the grid exactly once |
| DramBlockSize.GridWithinRange | 03_01_data_oriented_design/code/dram_block_size.cpp:22 | rowSize * (rangeSize / rowSize) <= rangeSize, so every offset is below rangeSize |
| DramBlockSize.OffsetGenerator.constructor | 03_01_data_oriented_design/code/dram_block_size.cpp:20-32 | columnSize = rangeSize / rowSize, the tables are the given permutations stored as uint16_t/uint32_t (identity rows without shuffle), both indices 0 |
| DramBlockSize.OffsetGenerator.Next | 03_01_data_oriented_design/code/dram_block_size.cpp:34-42 | the k-th call returns OffsetAt(k); rowIdx advances, wrapping to 0 while columnIdx advances modulo columnSize |
| DramCoherence.SumOf | 03_01_data_oriented_design/code/dram_coherence.cpp:15-23 | values[indices(0)] + ... + values[indices(count - 1)], the sum `Sum` computes |
| DramCoherence.Sum | 03_01_data_oriented_design/code/dram_coherence.cpp:15-23 | the sum of values at the first count indices the functor produces |
| DramCoherence.SumOfOnes | 03_01_data_oriented_design/code/dram_coherence.cpp:84-87 | on all-ones data the sum equals the number of reads |
| DramCoherence.LinearIndex | 03_01_data_oriented_design/code/dram_coherence.cpp:28-30 | the k-th call of LinearIndices returns 8k |
| DramCoherence.LinearIndices.constructor | 03_01_data_oriented_design/code/dram_coherence.cpp:27 | idx starts at 0 |
| DramCoherence.LinearIndices.Next | 03_01_data_oriented_design/code/dram_coherence.cpp:28-30 | the k-th call returns 8k |
| DramCoherence.LinearSumOfOnes | 03_01_data_oriented_design/code/dram_coherence.cpp:84-87 | with count = size/8 every linear index is inside the data and the all-ones sum is size/8 |
| DramCoherence.ClusteredIndex | 03_01_data_oriented_design/code/dram_coherence.cpp:43-52 | the k-th call of ClusteredIndices returns 8 * ((k / S) * S + table[k mod S]) |
| DramCoherence.ClusterStep | 03_01_data_oriented_design/code/dram_coherence.cpp:44-48 | moving to the next cluster keeps calls = clusterIdx*clusterSize + offsetIdx |
| DramCoherence.ClusteredIndices.AsWritten | 03_01_data_oriented_design/code/dram_coherence.cpp:35-41 | the constructor as written: a table of clusterSize-1 entries |
| DramCoherence.ClusteredIndices.constructor | 03_01_data_oriented_design/code/dram_coherence.cpp:35-41 | corrected: a table of clusterSize entries, a permutation of 0..clusterSize-1 |
| DramCoherence.ClusteredIndices.Next | 03_01_data_oriented_design/code/dram_coherence.cpp:43-52 | the k-th call reads slot k mod clusterSize, which must exist, and returns 8*((k/S)*S + table[k mod S]) |
| DramCoherence.AsWrittenReadsPastTable | 03_01_data_oriented_design/code/dram_coherence.cpp:37 | as written, every clusterSize-th call reads slot clusterSize-1, one past the table |
| DramCoherence.AsWrittenEighthCallOverruns | 03_01_data_oriented_design/code/dram_coherence.cpp:91 | the benchmark's clusterSize 8: after seven calls the eighth would read slot 7 of a 7-slot table |
| DramCoherence.ClusteredVisits | 03_01_data_oriented_design/code/dram_coherence.cpp:51 | the element numbers of the first count calls, each 1/8 of the returned index |
| DramCoherence.ClusteredVisitsEachOnce | 03_01_data_oriented_design/code/dram_coherence.cpp:43-52 | with the full table and count a multiple of clusterSize, the calls visit each element of [0, count) exactly once |
| DramCoherence.ConstructedVisitsEachOnce | 03_01_data_oriented_design/code/dram_coherence.cpp:35-52 | with the `uint16_t` table the full constructor fills from a shuffle of up to 65536 slots, the first count calls (count a multiple of S) visit every element number in [0, count) once |
| DramCoherence.ClusteredSumOfOnes | 03_01_data_oriented_design/code/dram_coherence.cpp:90-95 | with the full table every clustered read is inside the data and the all-ones sum is size/8 |
| DramBurstMode.MaskedBound | 03_01_data_oriented_design/code/dram_burst_mode.cpp:9 | `values.size() & ~7u`: the size truncated to 32 bits, rounded down to a multiple of 8 |
| DramBurstMode.WholeBound | 03_01_data_oriented_design/code/dram_burst_mode.cpp:9 | the bound the loop evidently intends: the full size rounded down to a multiple of 8 |
| DramBurstMode.SumRange | 03_01_data_oriented_design/code/dram_burst_mode.cpp:10-15 | values[lo] + ... + values[hi - 1], the sequential sum the blocks must equal |
| DramBurstMode.SumOfFirsts | 03_01_data_oriented_design/code/dram_burst_mode.cpp:21-24 | values[0] + values[8] + ... over the given number of blocks |
| DramBurstMode.PairwiseIsSequential | 03_01_data_oriented_design/code/dram_burst_mode.cpp:11-14 | the pairwise bracketing of a block of 8 equals its left-to-right sum |
| DramBurstMode.SumRangeSplit | 03_01_data_oriented_design/code/dram_burst_mode.cpp:10-15 | a range sum splits at any midpoint |
| DramBurstMode.SumBlocks | 03_01_data_oriented_design/code/dram_burst_mode.cpp:10-15 | the loop of sum_all returns the sum of values[0 .. bound) |
| DramBurstMode.SumFirstsOfBlocks | 03_01_data_oriented_design/code/dram_burst_mode.cpp:21-24 | the loop of sum_every_8th returns the sum of values[8k] for 8k < bound |
| DramBurstMode.SumAll | 03_01_data_oriented_design/code/dram_burst_mode.cpp:7-17 | as written: the sum of values[0 .. size & ~7u) |
| DramBurstMode.SumEvery8th | 03_01_data_oriented_design/code/dram_burst_mode.cpp:19-26 | as written: the sum of values[8k] for 8k < size & ~7u |
| DramBurstMode.SumAllWhole | 03_01_data_oriented_design/code/dram_burst_mode.cpp:9 | corrected: the sum of values[0 .. size rounded down to a multiple of 8) |
| DramBurstMode.SumEvery8thWhole | 03_01_data_oriented_design/code/dram_burst_mode.cpp:21 | corrected: the sum of values[8k] over all whole blocks |
| DramBurstMode.MaskedBoundIsWholeBelow4G | 03_01_data_oriented_design/code/dram_burst_mode.cpp:9 | the 32-bit mask bound is at most the whole-block bound, and equal to it iff size < 2^32 |
| DramBurstMode.SumRangeOfOnes | 03_01_data_oriented_design/code/dram_burst_mode.cpp:43-46 | on all-ones data a range sum is the range's length |
| DramBurstMode.SumOfFirstsOfOnes | 03_01_data_oriented_design/code/dram_burst_mode.cpp:50-53 | on all-ones data the sum of the block heads is the number of blocks |
| DramBurstMode.SumsOfOnes | 03_01_data_oriented_design/code/dram_burst_mode.cpp:43-53 | on n all-ones values, n a multiple of 8 below 2^32, sum_all gives n and sum_every_8th n/8 |
| DramBurstMode.SumAllMissesEverythingAt4G | 03_01_data_oriented_design/code/dram_burst_mode.cpp:9 | with 2^32 all-ones values, sum_all as written gives 0 where the whole bound gives 2^32 |
| DramBurstMode.WholeSumsOfOnes | 03_01_data_oriented_design/code/dram_burst_mode.cpp:43-53 | with the whole-width mask the benchmark's checks hold for every multiple of 8 |
| CacheBlockSize.Round | 03_01_data_oriented_design/code/cache_block_size.cpp:16-20 | the sizes one loop round pushes for the power s: s, then 5s/4, 6s/4, 7s/4 (products modulo 2^64) unless s is maxSize |
| CacheBlockSize.BlockSizesFrom | 03_01_data_oriented_design/code/cache_block_size.cpp:14-21 | the sizes the loop pushes from the power s on, doubling s while s <= maxSize |
| CacheBlockSize.GetBlockSizes | 03_01_data_oriented_design/code/cache_block_size.cpp:12-23 | the loop returns BlockSizesFrom(128, maxSize): each power s, then (unless s = maxSize) 5s/4, 6s/4, 7s/4 with size_t wrap-around |
| CacheBlockSize.EmptyBelow128 | 03_01_data_oriented_design/code/cache_block_size.cpp:14-15 | the list is empty iff maxSize < 128, and otherwise starts with 128 |
| CacheBlockSize.PowersListed | 03_01_data_oriented_design/code/cache_block_size.cpp:14-21 | every s*2^k <= maxSize is listed from s on |
| CacheBlockSize.EveryPowerListed | 03_01_data_oriented_design/code/cache_block_size.cpp:14-15 | every 128*2^k <= maxSize is a block size |
| CacheBlockSize.IncreasingFrom | 03_01_data_oriented_design/code/cache_block_size.cpp:14-21 | below 2^61 the sizes from s on are at least s and strictly increasing |
| CacheBlockSize.RoundBetween | 03_01_data_oriented_design/code/cache_block_size.cpp:16-20 | one round s, 5s/4, 6s/4, 7s/4 is increasing and lies in [s, 2s) |
| CacheBlockSize.BlockSizesIncrease | 03_01_data_oriented_design/code/cache_block_size.cpp:12-23 | for maxSize < 2^61 the result is strictly increasing |
| CacheBlockSize.LengthAtPowerFrom | 03_01_data_oriented_design/code/cache_block_size.cpp:14-21 | with maxSize = s*2^k the list from s has 4k+1 entries, the last being maxSize |
| CacheBlockSize.LengthAtPower | 03_01_data_oriented_design/code/cache_block_size.cpp:14-21 | for maxSize = 128*2^k: 4k+1 sizes ending with maxSize |
| CacheBlockSize.BenchmarkBlockSizes | 03_01_data_oriented_design/code/cache_block_size.cpp:32 | the benchmark's 512 MiB maximum gives 89 block sizes, the last 512 MiB |
| CacheBlockSize.OvershootsBetweenPowers | 03_01_data_oriented_design/code/cache_block_size.cpp:16-20 | for a maxSize between powers the intermediate sizes exceed it: GetBlockSizes(150) is 128, 160, 192, 224 |
| FalseSharing.View | 03_01_data_oriented_design/code/false_sharing.cpp:15 | a span shows count elements |
| FalseSharing.Base | 03_01_data_oriented_design/code/false_sharing.cpp:12 | `(size + nthreads - 1) / nthreads`; FalseSharing.BaseIsCeiling states it is the ceiling of size / nthreads |
| FalseSharing.BaseIsCeiling | 03_01_data_oriented_design/code/false_sharing.cpp:12 | my_base is the ceiling of size / nthreads |
| FalseSharing.GetMyValues | 03_01_data_oriented_design/code/false_sharing.cpp:11-17 | the slice lies inside the data when it starts there |
| FalseSharing.SliceBounds | 03_01_data_oriented_design/code/false_sharing.cpp:13-15 | the slice starts at my_base*my_idx, holds at most my_base elements and ends at min(size, my_base*(my_idx+1)) |
| FalseSharing.SlicesAdjacent | 03_01_data_oriented_design/code/false_sharing.cpp:13-15 | thread my_idx+1 starts where thread my_idx ends |
| FalseSharing.LastSliceEndsAtSize | 03_01_data_oriented_design/code/false_sharing.cpp:14 | the last thread's slice ends at the end of the data |
| FalseSharing.SlicesCover | 03_01_data_oriented_design/code/false_sharing.cpp:11-17 | the nthreads slices concatenated are the whole data, in order |
| FalseSharing.GetMyValuesClamped | 03_01_data_oriented_design/code/false_sharing.cpp:13-15 | corrected: the start clamped to the end of the data, the slice always inside it |
| FalseSharing.ClampedAgrees | 03_01_data_oriented_design/code/false_sharing.cpp:13-15 | where get_my_values is defined the clamped slice is the same |
| FalseSharing.LateSliceStartsPastEnd | 03_01_data_oriented_design/code/false_sharing.cpp:13-15 | with 5 values and 4 threads thread 3 starts at 6 > 5; the clamped slice is the empty one at 5 |
| FalseSharing.ClampedSlicesTile | 03_01_data_oriented_design/code/false_sharing.cpp:13-15 | for every thread count the clamped slices start at 0, are adjacent and end at the end of the data |
| CacheFalseSharing.SeqSumAppend | 03_01_data_oriented_design/code/cache_false_sharing.cpp:52 | the sum of a concatenation is the sum of the sums |
| CacheFalseSharing.PartitionValues | 03_01_data_oriented_design/code/cache_false_sharing.cpp:17-28 | exactly nthreads partitions, each inside the data, partition i equal to get_my_values(values, i, nthreads) |
| CacheFalseSharing.PartSums | 03_01_data_oriented_design/code/cache_false_sharing.cpp:41 | one sum per partition, the i-th being the sum of partition i |
| CacheFalseSharing.PartitionsAreSlices | 03_01_data_oriented_design/code/cache_false_sharing.cpp:21-25 | the first k partitions concatenated are the first k thread slices |
| CacheFalseSharing.PartitionsCoverValues | 03_01_data_oriented_design/code/cache_false_sharing.cpp:21-25 | the partitions concatenated are the values, in order |
| CacheFalseSharing.PartSumsAddUp | 03_01_data_oriented_design/code/cache_false_sharing.cpp:52 | the partition sums add up to the sum of the concatenated partitions |
| CacheFalseSharing.DoSum | 03_01_data_oriented_design/code/cache_false_sharing.cpp:31-36 | `*out` ends as its initial value plus the sum of the items; nothing else changes |
| CacheFalseSharing.LocalSum | 03_01_data_oriented_design/code/cache_false_sharing.cpp:64-65 | a thread's `int64_t local = 0; do_sum(&local, …)` leaves the sum of its partition in `local` |
| CacheFalseSharing.Reduce | 03_01_data_oriented_design/code/cache_false_sharing.cpp:52 | std::reduce returns the sum of the partial sums |
| CacheFalseSharing.SlotsAddUp | 03_01_data_oriented_design/code/cache_false_sharing.cpp:52 | slots holding the partition sums reduce to the sum of all values |
| CacheFalseSharing.FalseSharingInSequence | 03_01_data_oriented_design/code/cache_false_sharing.cpp:39-53 | false_sharing with its threads run in turn returns the sum of all values |
| CacheFalseSharing.NoFalseSharingInSequence | 03_01_data_oriented_design/code/cache_false_sharing.cpp:56-72 | no_false_sharing with its threads run in turn returns the sum of all values |

## Left out

- Threads: the `std::thread` spawning and joining of cache_false_sharing.cpp and false_sharing.cpp is not modelled. The drivers run the per-thread bodies one after another, which gives the same slots because each thread writes only its own. The `volatile` qualifier has no counterpart.
- The thread drivers of false_sharing.cpp (`with_false_sharing`, `without_false_sharing`) are not modelled. They share their structure with the cache_false_sharing.cpp drivers. Their `std::reduce(..., 0)` accumulates in `int`, and that truncation is not modelled.
- Timing (`chrono`), aligned allocation, prefetch intrinsics and the printing of bandwidth figures in the benchmark `main`s are left out. So are the benchmarks' `main` loops themselves. Their result checks are stated as lemmas on all-ones data.
- The PRNG (`mt19937_64`, `std::ranges::shuffle`) is not modelled. Each shuffled table is a permutation parameter. `ClusteredIndices::clusterRng` is never drawn from (its use is commented out) and is not modelled.
- C++ `int`/`int64_t` element values and sums are unbounded integers, and signed overflow is not modelled. The unsigned widths that matter are written out: the `unsigned int` of `Factorial`, the `uint16_t`/`uint32_t` tables, the 32-bit `~7u` mask and the `size_t` products of `GetBlockSizes`.
- CacheBlockSize.GetBlockSizes: requires maxSize < 2^63, because from 2^63 on `s *= 2` wraps to 0 and the loop does not end.
- DramCoherence.Sum: the index functor is passed as the function from call number to index that it implements. Each functor class is proved to return that function's k-th value on its k-th call.
- DramCoherence.ClusteredIndices.Next: requires the slot it reads to exist. The as-written table lacks that slot, which is recorded under Findings.
- CursorSpec.Step: a filter's rescan is bounded by a fuel parameter (the elements one scan may skip). Runs that need more are undefined in the model rather than infinite.
- CursorObjects.Dump: `dump` takes its cursor by value, while the model advances the cursor it is given. In every scenario the argument is either a temporary or a copy that shares its upstream by reference, so the difference is not observable there.
- CursorObjects.Cursor.BudgetTake, CursorObjects.Cursor.Square, CursorObjects.Cursor.AnyCursor and CursorObjects.Cursor.Transform (in its 02_05_examples_sid use) share where the source owns. The C++ adapter holds a moved copy of its upstream, while the model's adapter holds the upstream object itself. Every call site passes a temporary, so nothing else observes the difference. A caller that kept an lvalue after handing over a copy would see it unchanged in C++ but advanced in the model.
- Object lifetimes are not modelled. The dangling `any_cursor` of cursor.cpp's `main` (the temporary under `numbers_from(42) | take(2)`) is treated as if the temporary lived on.
- `any_cursor`'s heap allocation, `unique_ptr` and virtual dispatch are not modelled; only the forwarding is.
- The `iter`/`sentinel` range-for adapters are modelled only through the loops of `Dump` and `ToVector`, which do the same `done`/`get`/`next` sequence.
- The `Cursor` concept, the SFINAE fallbacks and the CTAD macros have no runtime behaviour. The closed set of cursor shapes in `CursorSpec.State` stands for them, and the `done` fallback is the `false` of the sources without `done`.
- Output formatting (`std::cout`, separators, `endl`) is not modelled. `dump` returns the printed values.
- The pipe's choice between application and composition is made by the C++ types. The model offers both branches as separate functions, chosen at each use.
- The static check that `to_vector`'s element type is `std::vector<int>` is a compile-time fact, and there is no counterpart.

## Findings

| source | as written | input that shows it | evidently intended | confidence | as-written member | corrected member |
|---|---|---|---|---|---|---|
| 03_01_data_oriented_design/code/dram_coherence.cpp:37 | `offsetTable(clusterSize - 1)`, while `operator()` reads slots 0..clusterSize-1 before wrapping | `ClusteredIndices{ values.size(), 8 }`: the eighth call reads `offsetTable[7]` of a 7-entry table | a table of clusterSize entries, a shuffle of 0..clusterSize-1, so that each cluster visits all of its elements once | high, not executed | DramCoherence.AsWrittenEighthCallOverruns | DramCoherence.ClusteredIndices.constructor |
| 03_01_data_oriented_design/code/dram_burst_mode.cpp:9 | `values.size() & ~7u`, a 32-bit mask zero-extended to `size_t`, drops every bit above 31 of the size (also line 21) | 2^32 values, all ones: the bound is 0 and `sum_all` returns 0 instead of 2^32 | `size & ~size_t(7)`: the size rounded down to whole blocks of 8 | medium, not executed | DramBurstMode.SumAll | DramBurstMode.SumAllWhole |
| 03_01_data_oriented_design/code/false_sharing.cpp:13-15 | `my_end - my_start` in `size_t` with `my_start = my_base * my_idx` possibly past the end (also cache_false_sharing.cpp:22-24) | 5 values, 4 threads: my_base = 2, thread 3 starts at 6 > 5 and the length underflows | the start clamped to the size, giving an empty slice at the end | medium, not executed | FalseSharing.LateSliceStartsPastEnd | FalseSharing.GetMyValuesClamped |
