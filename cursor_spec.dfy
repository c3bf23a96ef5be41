/** The cursor concept as values.

    A cursor is a single-pass, pull-based sequence with three operations: `get`
    (peek at the current element), `done` (is the sequence exhausted?) and `next`
    (advance).  `State` is the abstract value of a whole chain of cursors: one
    source at the bottom and zero or more adapters, each holding its upstream.
    The heap objects of module CursorObjects are proved against `Done`, `Get` and
    `Step` on this value.

    The set of cursor shapes is closed: the sources and adapters of
    02_05_example_concept_based_design (cursor.hpp, cursor.cpp, sol1_filter.cpp)
    and of 02_05_examples_sid/cursor.cpp.  Elements are C++ `int`s, modelled as
    unbounded integers. */
module CursorSpec {
  import opened Optional
  import opened Arith

  datatype State =
      /** numbers_from: counts up from value_, has no `done` of its own */
    | NumbersFrom(value: int)
      /** range{start_, stop_} of the earlier library */
    | Range(start: int, stop: int)
      /** a_very_concrete_cursor: a fixed array and an index into it */
    | Concrete(data: seq<int>, i: nat)
      /** take_impl_ of cursor.hpp/cursor.cpp: done when upstream is done or the budget is spent */
    | Take(up: State, left: int)
      /** take_impl of the earlier library: done only when the budget is spent */
    | BudgetTake(up: State, left: int)
      /** transform_impl_: applies fn to every element */
    | Transform(fn: int -> int, up: State)
      /** square_impl of the earlier library */
    | Square(up: State)
      /** filter_impl: sits on an element satisfying pred, or on an exhausted upstream */
    | Filter(pred: int -> bool, up: State)
      /** any_cursor<int>: the type-erased wrapper, forwarding every operation */
    | Erased(up: State)
      /** cursor_wrapper<AnotherAPI::NumbersFrom<int>>: a foreign Get/Next/Done type */
    | Adopted(value: int)

  /** Nesting depth of a chain: the number of adapters above the source. */
  function Depth(s: State): nat
  {
    match s
    case Take(u, _) => Depth(u) + 1
    case BudgetTake(u, _) => Depth(u) + 1
    case Transform(_, u) => Depth(u) + 1
    case Square(u) => Depth(u) + 1
    case Filter(_, u) => Depth(u) + 1
    case Erased(u) => Depth(u) + 1
    case _ => 0
  }

  /** `done`.  numbers_from defines none, so the variadic fallback `cursor_done(...)`
      answers false; AnotherAPI::NumbersFrom::Done also answers false. */
  predicate Done(s: State)
  {
    match s
    case NumbersFrom(_) => false
    case Range(start, stop) => start >= stop
    case Concrete(data, i) => i >= |data|
    case Take(u, left) => Done(u) || left <= 0
    case BudgetTake(_, left) => left <= 0
    case Transform(_, u) => Done(u)
    case Square(u) => Done(u)
    case Filter(_, u) => Done(u)
    case Erased(u) => Done(u)
    case Adopted(_) => false
  }

  /** Whether `get` is defined.  Only the array cursor can be read out of bounds;
      every other source returns its counter even when exhausted. */
  predicate Readable(s: State)
  {
    match s
    case NumbersFrom(_) => true
    case Range(_, _) => true
    case Concrete(data, i) => i < |data|
    case Take(u, _) => Readable(u)
    case BudgetTake(u, _) => Readable(u)
    case Transform(_, u) => Readable(u)
    case Square(u) => Readable(u)
    case Filter(_, u) => Readable(u)
    case Erased(u) => Readable(u)
    case Adopted(_) => true
  }

  /** `get`: the current element. */
  function Get(s: State): int
    requires Readable(s)
  {
    match s
    case NumbersFrom(v) => v
    case Range(start, _) => start
    case Concrete(data, i) => data[i]
    case Take(u, _) => Get(u)
    case BudgetTake(u, _) => Get(u)
    case Transform(f, u) => f(Get(u))
    case Square(u) => Get(u) * Get(u)
    case Filter(_, u) => Get(u)
    case Erased(u) => Get(u)
    case Adopted(v) => v
  }

  /** `next`.  Every step is defined except a filter's, whose rescan may have to skip
      more than `fuel` elements (or may read an unreadable upstream); then the
      result is None.  `fuel` bounds the elements one scan may skip. */
  function Step(s: State, fuel: nat): (r: Option<State>)
    ensures r.Some? ==> Depth(r.value) == Depth(s)
    decreases Depth(s), 1, 0
  {
    match s
    case NumbersFrom(v) => Some(NumbersFrom(v + 1))
    case Range(start, stop) => Some(Range(start + 1, stop))
    case Concrete(data, i) => Some(Concrete(data, i + 1))
    case Take(u, left) =>
      (match Step(u, fuel)
       case None => None
       case Some(u') => Some(Take(u', left - 1)))
    case BudgetTake(u, left) =>
      (match Step(u, fuel)
       case None => None
       case Some(u') => Some(BudgetTake(u', left - 1)))
    case Transform(f, u) =>
      (match Step(u, fuel)
       case None => None
       case Some(u') => Some(Transform(f, u')))
    case Square(u) =>
      (match Step(u, fuel)
       case None => None
       case Some(u') => Some(Square(u')))
    case Filter(p, u) =>
      (match Step(u, fuel)
       case None => None
       case Some(u') =>
         (match Scan(p, u', fuel, fuel)
          case None => None
          case Some(u'') => Some(Filter(p, u''))))
    case Erased(u) =>
      (match Step(u, fuel)
       case None => None
       case Some(u') => Some(Erased(u')))
    case Adopted(v) => Some(Adopted(v + 1))
  }

  /** filter_impl::advance_to_next: step the upstream until the predicate holds on
      its `get` or it is done, skipping at most k elements.  As in the source,
      `get` is evaluated before `done`, so the scan reads the upstream even when
      it is exhausted.  A successful scan lands on a readable position that
      matches or is done. */
  function Scan(p: int -> bool, u: State, k: nat, fuel: nat): (r: Option<State>)
    ensures r.Some? ==> Depth(r.value) == Depth(u)
    ensures r.Some? ==> Readable(r.value) && (p(Get(r.value)) || Done(r.value))
    decreases Depth(u) + 1, 0, k
  {
    if !Readable(u) then None
    else if p(Get(u)) || Done(u) then Some(u)
    else if k == 0 then None
    else
      match Step(u, fuel)
      case None => None
      case Some(u') => Scan(p, u', k - 1, fuel)
  }

  /** The state a filter is constructed in: the constructor runs the scan once. */
  function FilterFrom(p: int -> bool, u: State, fuel: nat): Option<State>
  {
    match Scan(p, u, fuel, fuel)
    case None => None
    case Some(w) => Some(Filter(p, w))
  }

  /** A consumer's first n rounds of `done`/`get`/`next` are defined: it stops early
      when done, and otherwise can read and advance. */
  predicate Pulls(s: State, n: nat, fuel: nat)
    decreases n
  {
    n == 0 || Done(s) || (Readable(s) && Step(s, fuel).Some? && Pulls(Step(s, fuel).value, n - 1, fuel))
  }

  /** The elements a consumer reads in at most n rounds, in order. */
  function Outputs(s: State, n: nat, fuel: nat): seq<int>
    requires Pulls(s, n, fuel)
    decreases n
  {
    if n == 0 || Done(s) then [] else [Get(s)] + Outputs(Step(s, fuel).value, n - 1, fuel)
  }

  /** The state a consumer leaves behind after at most n rounds. */
  function Drained(s: State, n: nat, fuel: nat): State
    requires Pulls(s, n, fuel)
    decreases n
  {
    if n == 0 || Done(s) then s else Drained(Step(s, fuel).value, n - 1, fuel)
  }

  /** The cursor is exhausted within n rounds. */
  predicate Finishes(s: State, n: nat, fuel: nat)
  {
    Pulls(s, n, fuel) && Done(Drained(s, n, fuel))
  }

  /** Every filter in the chain sits on a readable element that matches its
      predicate, or on an exhausted upstream (filter_impl's invariant). */
  predicate Positioned(s: State)
  {
    match s
    case Take(u, _) => Positioned(u)
    case BudgetTake(u, _) => Positioned(u)
    case Transform(_, u) => Positioned(u)
    case Square(u) => Positioned(u)
    case Filter(p, u) => Positioned(u) && Readable(u) && (p(Get(u)) || Done(u))
    case Erased(u) => Positioned(u)
    case _ => true
  }

  // ---------------------------------------------------------------------------
  // Element-level helpers

  /** C++ `%` on signed integers truncates toward zero (Dafny's `%` is Euclidean):
      the remainder takes the sign of the dividend. */
  function CRem(a: int, b: int): (r: int)
    requires b > 0
  {
    if a >= 0 then a % b else -((-a) % b)
  }

  /** `odd_predicate` of sol1_filter.cpp: `a % 2 == 1` with C++'s remainder. */
  predicate Odd(a: int)
  {
    CRem(a, 2) == 1
  }

  /** `[](auto a) { return a * a; }` */
  function Sq(a: int): int
  {
    a * a
  }

  /** a, a+1, ..., a+n-1 */
  function Interval(a: int, n: nat): (r: seq<int>)
    ensures |r| == n
    ensures forall i :: 0 <= i < n ==> r[i] == a + i
    decreases n
  {
    if n == 0 then [] else [a] + Interval(a + 1, n - 1)
  }

  function MapSeq(f: int -> int, xs: seq<int>): (r: seq<int>)
    ensures |r| == |xs|
    ensures forall i :: 0 <= i < |xs| ==> r[i] == f(xs[i])
  {
    if xs == [] then [] else [f(xs[0])] + MapSeq(f, xs[1..])
  }

  function FilterSeq(p: int -> bool, xs: seq<int>): seq<int>
  {
    if xs == [] then []
    else if p(xs[0]) then [xs[0]] + FilterSeq(p, xs[1..])
    else FilterSeq(p, xs[1..])
  }
}
