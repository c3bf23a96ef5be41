/** The integer expression tree of 02_01_functional_generic_utilities/code/ast.cpp
    and its recursive evaluator.

    In C++ an `ast` is a variant of a literal and two uniquely owned binary
    nodes; unique ownership makes every tree finite and acyclic, which is what
    an inductive datatype gives by construction.  Literals are C++ `int`s; the
    evaluator's signed overflow is undefined behaviour in C++, so values are
    modelled as unbounded integers. */
module Ast {
  import opened Optional

  datatype Expr =
    | Lit(x: int)
    | Add(left: Expr, right: Expr)
    | Mul(left: Expr, right: Expr)

  /** `eval`: literals evaluate to themselves, `add` and `mul` combine the values
      of their two children. */
  function Eval(a: Expr): int
  {
    match a
    case Lit(x) => x
    case Add(l, r) => Eval(l) + Eval(r)
    case Mul(l, r) => Eval(l) * Eval(r)
  }

  /** The number of nested `eval` frames the evaluation of a needs. */
  function Height(a: Expr): (h: nat)
    ensures h >= 1
  {
    match a
    case Lit(_) => 1
    case Add(l, r) => 1 + Max(Height(l), Height(r))
    case Mul(l, r) => 1 + Max(Height(l), Height(r))
  }

  function Max(a: nat, b: nat): nat
  {
    if a >= b then a else b
  }

  /** `eval` run with a call stack of at most `depth` frames: None when the
      stack would overflow. */
  function EvalWithin(a: Expr, depth: nat): Option<int>
  {
    if depth == 0 then None
    else
      match a
      case Lit(x) => Some(x)
      case Add(l, r) =>
        (match (EvalWithin(l, depth - 1), EvalWithin(r, depth - 1))
         case (Some(u), Some(v)) => Some(u + v)
         case _ => None)
      case Mul(l, r) =>
        (match (EvalWithin(l, depth - 1), EvalWithin(r, depth - 1))
         case (Some(u), Some(v)) => Some(u * v)
         case _ => None)
  }

  /** The recursion of `eval` terminates, and its depth is exactly the height of
      the tree: with that many frames it yields `Eval(a)`, with fewer it cannot
      finish. */
  lemma {:induction false} EvalDepthIsHeight(a: Expr, depth: nat)
    ensures depth >= Height(a) ==> EvalWithin(a, depth) == Some(Eval(a))
    ensures depth < Height(a) ==> EvalWithin(a, depth) == None
  {
    match a
    case Lit(_) =>
    case Add(l, r) =>
      if depth > 0 {
        EvalDepthIsHeight(l, depth - 1);
        EvalDepthIsHeight(r, depth - 1);
      }
    case Mul(l, r) =>
      if depth > 0 {
        EvalDepthIsHeight(l, depth - 1);
        EvalDepthIsHeight(r, depth - 1);
      }
  }

  /** `a{ mkop<add>(lit{ 3 }, mkop<mul>(lit{ 5 }, lit{ 3 })) }`, three frames deep. */
  function Example(): Expr
  {
    Add(Lit(3), Mul(Lit(5), Lit(3)))
  }

  /** "3 + (5 * 3) is 18" */
  lemma ExampleIsEighteen()
    ensures EvalWithin(Example(), 3) == Some(18)
    ensures EvalWithin(Example(), 2) == None
  {
    EvalDepthIsHeight(Example(), 3);
    EvalDepthIsHeight(Example(), 2);
  }
}
