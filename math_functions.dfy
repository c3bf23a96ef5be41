/** `mathfunctions::Factorial` of
    01_02_infrastructure_resources/code/cpp-example/MathFunctions/MathFunctions.cxx.

    The C++ function takes and returns `unsigned int`, a 32-bit unsigned
    integer whose multiplication wraps modulo 2^32; the wrap is written out. */
module MathFunctions {
  import opened Arith

  const TwoTo32: int := 0x1_0000_0000

  newtype u32 = x: int | 0 <= x < 0x1_0000_0000

  /** `number <= 1 ? number : Factorial(number - 1) * number` in unsigned
      arithmetic. */
  function Factorial(number: u32): u32
    decreases number
  {
    if number <= 1 then number
    else ((Factorial(number - 1) as int * number as int) % TwoTo32) as u32
  }

  /** The mathematical factorial, the reference Factorial is measured against. */
  function Fact(n: nat): (r: nat)
    ensures r >= 1
  {
    if n == 0 then 1 else n * Fact(n - 1)
  }

  /** Reducing a factor modulo m first does not change a product modulo m. */
  lemma ModOfProduct(a: nat, b: nat, m: int)
    requires m > 0
    ensures ((a % m) * b) % m == (a * b) % m
  {
    var q, r := a / m, a % m;
    var t := r * b;
    assert a * b == (q * b) * m + t;
    assert t == (t / m) * m + t % m;
    assert a * b == (q * b + t / m) * m + t % m;
    DivModUnique(a * b, m, q * b + t / m, t % m);
  }

  /** For every argument from 1 on, Factorial is n! modulo 2^32. */
  lemma {:induction false} FactorialIsFactModulo(n: u32)
    requires n >= 1
    ensures Factorial(n) as int == Fact(n as nat) % TwoTo32
    decreases n
  {
    if n > 1 {
      FactorialIsFactModulo(n - 1);
      ModOfProduct(Fact((n - 1) as nat), n as nat, TwoTo32);
      assert Fact(n as nat) == Fact((n - 1) as nat) * n as nat;
    }
  }

  /** 0 is not special-cased: `0 <= 1` returns the argument, so Factorial(0) is
      0 where 0! is 1. */
  lemma FactorialOfZero()
    ensures Factorial(0) == 0 && Fact(0) == 1
  {
  }

  lemma {:induction false} FactGrows(m: nat, n: nat)
    requires m <= n
    ensures Fact(m) <= Fact(n)
    decreases n - m
  {
    if m < n {
      FactGrows(m, n - 1);
    }
  }

  /** 12! = 479001600 is the largest factorial below 2^32, so up to 12 the
      result is exact. */
  lemma FactorialExactUpToTwelve(n: u32)
    requires 1 <= n <= 12
    ensures Factorial(n) as int == Fact(n as nat)
  {
    FactorialIsFactModulo(n);
    FactGrows(n as nat, 12);
    assert Fact(12) == 479001600;
  }

  /** 13! = 6227020800 wraps: the 32-bit result is 13! - 2^32. */
  lemma FactorialOfThirteenWraps()
    ensures Fact(13) == 6227020800
    ensures Factorial(13) as int == 1932053504
  {
    FactorialIsFactModulo(13);
    assert Fact(12) == 479001600;
    assert Fact(13) == 13 * Fact(12) == 6227020800;
    DivModUnique(6227020800, TwoTo32, 1, 1932053504);
  }

  /** The test cases of test_MathFunctions.cxx. */
  lemma FactorialTestCases()
    ensures Factorial(1) == 1
    ensures Factorial(2) == 2
    ensures Factorial(3) == 6
    ensures Factorial(10) == 3628800
  {
    FactorialExactUpToTwelve(2);
    FactorialExactUpToTwelve(3);
    FactorialExactUpToTwelve(10);
    assert Fact(10) == 3628800;
  }
}
