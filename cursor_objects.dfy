/** The cursors as heap objects.

    An adapter of cursor.hpp (`take`, `transform`) or of the filter solution
    constructed from an lvalue stores a reference to it (the parameter is
    deduced as `T&`), so `next` on the adapter advances the caller's cursor in
    place, and two adapters built in turn on the same lvalue see each other's
    progress.  The adapters of 02_05_examples_sid and `any_cursor` instead own
    a copy of the cursor they are given, which every call site passes as a
    temporary; the model lets those adapters hold that object too, which no one
    else can then observe.  The set of cursor shapes is closed, so one class
    `Cursor` carries a `kind` tag in place of one C++ type per shape; its
    `Done`, `Get` and `Next` are proved against `Done`, `Get` and `Step` of
    module CursorSpec on the abstract value `Model()`. */
module CursorObjects {
  import opened Optional
  import S = CursorSpec
  import L = CursorLaws

  /** AnotherAPI::NumbersFrom of 02_05_examples_sid: a counter spelled with
      Get/Next/Done instead of the cursor operations. */
  class ForeignNumbersFrom {
    var value: int

    constructor (value: int)
      ensures this.value == value
    {
      this.value := value;
    }

    function Get(): (v: int)
      reads this
      ensures v == value
    {
      value
    }

    /** `Done` always answers false: the counter never ends. */
    function Done(): (b: bool)
      ensures !b
    {
      false
    }

    method Next()
      modifies this
      ensures value == old(value) + 1
    {
      value := value + 1;
    }
  }

  /** Which C++ cursor type an object stands for, with that type's immutable
      parts. */
  datatype Kind =
      /** numbers_from<int>; the counter value_ is the object's `count` */
    | NumbersFromImpl
      /** range<int>; start_ is `count` */
    | RangeImpl(stop: int)
      /** a_very_concrete_cursor; the index i is `count` */
    | ConcreteImpl(data: seq<int>)
      /** take_impl_ of cursor.hpp and cursor.cpp; left_ is `count` */
    | TakeImpl
      /** take_impl of 02_05_examples_sid; left_ is `count` */
    | BudgetTakeImpl
      /** transform_impl_ / transform_impl */
    | TransformImpl(fn: int -> int)
      /** square_impl */
    | SquareImpl
      /** filter_impl */
    | FilterImpl(pred: int -> bool)
      /** any_cursor<int> */
    | AnyCursorImpl
      /** cursor_wrapper<AnotherAPI::NumbersFrom<int>>, with the foreign counter it owns */
    | WrapperImpl(api: ForeignNumbersFrom)
  {
    predicate IsAdapter()
    {
      TakeImpl? || BudgetTakeImpl? || TransformImpl? || SquareImpl? || FilterImpl? || AnyCursorImpl?
    }
  }

  class Cursor {
    const kind: Kind
    /** value_ of numbers_from, start_ of range, i of the array cursor, left_ of a take */
    var count: int
    /** the upstream cursor of an adapter, null for a source */
    const up: Cursor?
    ghost const Repr: set<object>

    ghost predicate Valid()
      reads this, Repr
      decreases Repr
    {
      && this in Repr
      && (kind.IsAdapter() <==> up != null)
      && (kind.ConcreteImpl? ==> count >= 0)
      && (kind.WrapperImpl? ==> kind.api in Repr)
      && (up != null ==> up in Repr && up.Repr <= Repr && this !in up.Repr && up.Valid())
    }

    /** The abstract value of the chain this object heads. */
    ghost function Model(): S.State
      requires Valid()
      reads this, Repr
      decreases Repr
    {
      match kind
      case NumbersFromImpl => S.NumbersFrom(count)
      case RangeImpl(stop) => S.Range(count, stop)
      case ConcreteImpl(data) => S.Concrete(data, count)
      case TakeImpl => S.Take(up.Model(), count)
      case BudgetTakeImpl => S.BudgetTake(up.Model(), count)
      case TransformImpl(f) => S.Transform(f, up.Model())
      case SquareImpl => S.Square(up.Model())
      case FilterImpl(p) => S.Filter(p, up.Model())
      case AnyCursorImpl => S.Erased(up.Model())
      case WrapperImpl(api) => S.Adopted(api.value)
    }

    // -------------------------------------------------------------------------
    // Sources

    /** numbers_from{value} */
    constructor NumbersFrom(value: int)
      ensures Valid() && fresh(Repr) && Model() == S.NumbersFrom(value)
      ensures kind == NumbersFromImpl
    {
      kind := NumbersFromImpl;
      count := value;
      up := null;
      Repr := {this};
    }

    /** range{start, stop} */
    constructor Range(start: int, stop: int)
      ensures Valid() && fresh(Repr) && Model() == S.Range(start, stop)
      ensures kind == RangeImpl(stop)
    {
      kind := RangeImpl(stop);
      count := start;
      up := null;
      Repr := {this};
    }

    /** a_very_concrete_cursor{} holds the array {1, 2, 3, 4, 5} and starts at index 0 */
    constructor VeryConcrete()
      ensures Valid() && fresh(Repr) && Model() == S.Concrete([1, 2, 3, 4, 5], 0)
      ensures kind == ConcreteImpl([1, 2, 3, 4, 5])
    {
      kind := ConcreteImpl([1, 2, 3, 4, 5]);
      count := 0;
      up := null;
      Repr := {this};
    }

    /** adopted_numbers_from{ {value} }: cursor_wrapper holds its foreign
        counter as a member, so the wrapper owns a counter of its own */
    constructor Adopt(value: int)
      ensures Valid() && fresh(Repr) && Model() == S.Adopted(value)
      ensures kind.WrapperImpl? && Repr == {this, kind.api}
    {
      var api := new ForeignNumbersFrom(value);
      kind := WrapperImpl(api);
      count := 0;
      up := null;
      Repr := {this, api};
    }

    // -------------------------------------------------------------------------
    // Adapters: each holds its upstream object (by reference in cursor.hpp
    // and the filter solution; the owned copy elsewhere is that object too)

    /** take(n)(c) of cursor.hpp: done when c is done or the budget is spent */
    constructor Take(c: Cursor, n: int)
      requires c.Valid()
      ensures Valid() && up == c && fresh(Repr - c.Repr) && Model() == S.Take(c.Model(), n)
      ensures kind == TakeImpl
    {
      kind := TakeImpl;
      count := n;
      up := c;
      Repr := {this} + c.Repr;
    }

    /** take(n)(c) of 02_05_examples_sid: done only when the budget is spent */
    constructor BudgetTake(c: Cursor, n: int)
      requires c.Valid()
      ensures Valid() && up == c && fresh(Repr - c.Repr) && Model() == S.BudgetTake(c.Model(), n)
      ensures kind == BudgetTakeImpl
    {
      kind := BudgetTakeImpl;
      count := n;
      up := c;
      Repr := {this} + c.Repr;
    }

    /** transform(f)(c); `squared` is transform(a * a) */
    constructor Transform(f: int -> int, c: Cursor)
      requires c.Valid()
      ensures Valid() && up == c && fresh(Repr - c.Repr) && Model() == S.Transform(f, c.Model())
      ensures kind == TransformImpl(f)
    {
      kind := TransformImpl(f);
      count := 0;
      up := c;
      Repr := {this} + c.Repr;
    }

    /** square_impl{c} */
    constructor Square(c: Cursor)
      requires c.Valid()
      ensures Valid() && up == c && fresh(Repr - c.Repr) && Model() == S.Square(c.Model())
      ensures kind == SquareImpl
    {
      kind := SquareImpl;
      count := 0;
      up := c;
      Repr := {this} + c.Repr;
    }

    /** any_cursor<int>(c) */
    constructor AnyCursor(c: Cursor)
      requires c.Valid()
      ensures Valid() && up == c && fresh(Repr - c.Repr) && Model() == S.Erased(c.Model())
      ensures kind == AnyCursorImpl
    {
      kind := AnyCursorImpl;
      count := 0;
      up := c;
      Repr := {this} + c.Repr;
    }

    /** filter(p)(c): the constructor scans c forward to its first match, or to
        its end.  `fuel` bounds how many elements that scan may skip. */
    constructor Filter(p: int -> bool, c: Cursor, ghost fuel: nat)
      requires c.Valid() && S.FilterFrom(p, c.Model(), fuel).Some?
      modifies c.Repr
      ensures Valid() && up == c && fresh(Repr - c.Repr) && kind == FilterImpl(p)
      ensures Model() == S.FilterFrom(p, old(c.Model()), fuel).value
    {
      AdvanceToNext(p, c, fuel);
      kind := FilterImpl(p);
      count := 0;
      up := c;
      Repr := {this} + c.Repr;
    }

    // -------------------------------------------------------------------------
    // The cursor operations

    /** `done`.  A source with no `done` of its own is never done. */
    function Done(): (b: bool)
      requires Valid()
      reads this, Repr
      ensures b == S.Done(Model())
      decreases Repr
    {
      match kind
      case NumbersFromImpl => false
      case RangeImpl(stop) => count >= stop
      case ConcreteImpl(data) => count >= |data|
      case TakeImpl => up.Done() || count <= 0
      case BudgetTakeImpl => count <= 0
      case TransformImpl(_) => up.Done()
      case SquareImpl => up.Done()
      case FilterImpl(_) => up.Done()
      case AnyCursorImpl => up.Done()
      case WrapperImpl(api) => api.Done()
    }

    /** `get`.  Defined unless the array cursor sits past its end. */
    function Get(): (v: int)
      requires Valid() && S.Readable(Model())
      reads this, Repr
      ensures v == S.Get(Model())
      decreases Repr
    {
      match kind
      case NumbersFromImpl => count
      case RangeImpl(_) => count
      case ConcreteImpl(data) => data[count]
      case TakeImpl => up.Get()
      case BudgetTakeImpl => up.Get()
      case TransformImpl(f) => f(up.Get())
      case SquareImpl => up.Get() * up.Get()
      case FilterImpl(_) => up.Get()
      case AnyCursorImpl => up.Get()
      case WrapperImpl(api) => api.Get()
    }

    /** `next`.  Sources bump their counter; a take decrements its budget and
        advances its upstream once, even on its last step; a filter advances its
        upstream once and rescans.  That a step keeps every filter of the chain
        positioned is CursorLaws.StepKeepsPositioned on the model. */
    method Next(ghost fuel: nat)
      requires Valid() && S.Step(Model(), fuel).Some?
      modifies Repr
      ensures Valid()
      ensures Model() == S.Step(old(Model()), fuel).value
      decreases Repr, 1
    {
      match kind
      case NumbersFromImpl => count := count + 1;
      case RangeImpl(_) => count := count + 1;
      case ConcreteImpl(_) => count := count + 1;
      case TakeImpl =>
        count := count - 1;
        up.Next(fuel);
      case BudgetTakeImpl =>
        up.Next(fuel);
        count := count - 1;
      case TransformImpl(_) => up.Next(fuel);
      case SquareImpl => up.Next(fuel);
      case FilterImpl(p) =>
        up.Next(fuel);
        AdvanceToNext(p, up, fuel);
      case AnyCursorImpl => up.Next(fuel);
      case WrapperImpl(api) => api.Next();
    }
  }

  /** filter_impl::advance_to_next: while the predicate fails on `get` and the
      cursor is not done, advance it.  `get` is evaluated before `done`. */
  method AdvanceToNext(p: int -> bool, c: Cursor, ghost fuel: nat)
    requires c.Valid() && S.Scan(p, c.Model(), fuel, fuel).Some?
    modifies c.Repr
    ensures c.Valid()
    ensures c.Model() == S.Scan(p, old(c.Model()), fuel, fuel).value
    decreases c.Repr, 2
  {
    ghost var k: nat := fuel;
    while !p(c.Get()) && !c.Done()
      invariant c.Valid()
      invariant S.Scan(p, c.Model(), k, fuel) == S.Scan(p, old(c.Model()), fuel, fuel)
      decreases k
    {
      c.Next(fuel);
      k := k - 1;
    }
  }

  // ---------------------------------------------------------------------------
  // Consumers

  /** to_vector: `for (auto v : cur) res.push_back(v);`.  The range-for checks
      `done` before each `get` and calls `next` after it, so the result is the
      cursor's elements in order up to its first `done`.  It ends only on a
      cursor that finishes, here within `bound` rounds. */
  method ToVector(c: Cursor, ghost bound: nat, ghost fuel: nat) returns (res: seq<int>)
    requires c.Valid() && S.Finishes(c.Model(), bound, fuel)
    modifies c.Repr
    ensures c.Valid()
    ensures res == S.Outputs(old(c.Model()), bound, fuel)
    ensures c.Model() == S.Drained(old(c.Model()), bound, fuel)
  {
    res := [];
    ghost var b := bound;
    while !c.Done()
      invariant c.Valid() && S.Finishes(c.Model(), b, fuel)
      invariant res + S.Outputs(c.Model(), b, fuel) == S.Outputs(old(c.Model()), bound, fuel)
      invariant S.Drained(c.Model(), b, fuel) == S.Drained(old(c.Model()), bound, fuel)
      decreases b
    {
      ghost var before, s := res, c.Model();
      L.RoundUnfolds(s, b, fuel);
      var v := c.Get();
      res := res + [v];
      c.Next(fuel);
      b := b - 1;
      assert (before + [v]) + S.Outputs(c.Model(), b, fuel) == before + ([v] + S.Outputs(c.Model(), b, fuel));
    }
  }

  /** dump: the loop `for (; !done(cur); next(cur)) print(get(cur))` prints the
      same elements to_vector collects; the printed lines are the result. */
  method Dump(c: Cursor, ghost bound: nat, ghost fuel: nat) returns (printed: seq<int>)
    requires c.Valid() && S.Finishes(c.Model(), bound, fuel)
    modifies c.Repr
    ensures c.Valid()
    ensures printed == S.Outputs(old(c.Model()), bound, fuel)
    ensures c.Model() == S.Drained(old(c.Model()), bound, fuel)
  {
    printed := ToVector(c, bound, fuel);
  }
}
