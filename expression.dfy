/**
  The expression tree built by the parser and its evaluation.

  The source represents a tree as boxed trait objects: a numeric constant, or an
  `Operator` node that owns one or two sub-expressions. Here the tree is one
  algebraic datatype; the factory functions of the source (`val`, `add`, `sub`,
  `mul`, `div`, `rem`, `neg`, `abs`) are its constructors, taking the left
  operand first and the right operand second.
*/
module Expression {

  datatype Expr =
    | Const(value: real)
    | Add(left: Expr, right: Expr)
    | Sub(left: Expr, right: Expr)
    | Mul(left: Expr, right: Expr)
    | Div(left: Expr, right: Expr)
    | Rem(left: Expr, right: Expr)
    | Neg(operand: Expr)
    | Abs(operand: Expr)

  /**
    Floating-point quotient and remainder. Their IEEE-754 behaviour (a zero
    divisor giving an infinity or NaN, rounding, the sign of `%`) is not part
    of the model, so evaluation takes them as parameters and nothing is
    assumed about them.
  */
  datatype Arith = Arith(quot: (real, real) -> real, rem: (real, real) -> real)

  /** The absolute value used by the `Abs` node: negate a negative number, keep any other. */
  function AbsValue(n: real): (r: real)
    ensures r >= 0.0
    ensures r == n || r == -n
    ensures n < 0.0 <==> r != n
  {
    if n < 0.0 then -n else n
  }

  /**
    Evaluation: structural recursion over the tree, defined for every tree.
    A constant is its own value.
  */
  function Eval(e: Expr, ar: Arith): (v: real)
    ensures e.Const? ==> v == e.value
  {
    match e
    case Const(v) => v
    case Add(l, r) => Eval(l, ar) + Eval(r, ar)
    case Sub(l, r) => Eval(l, ar) - Eval(r, ar)
    case Mul(l, r) => Eval(l, ar) * Eval(r, ar)
    case Div(l, r) => ar.quot(Eval(l, ar), Eval(r, ar))
    case Rem(l, r) => ar.rem(Eval(l, ar), Eval(r, ar))
    case Neg(x) => -Eval(x, ar)
    case Abs(x) => AbsValue(Eval(x, ar))
  }

  /** True when no node of the tree is a quotient or a remainder. */
  predicate DivisionFree(e: Expr)
  {
    match e
    case Const(_) => true
    case Add(l, r) => DivisionFree(l) && DivisionFree(r)
    case Sub(l, r) => DivisionFree(l) && DivisionFree(r)
    case Mul(l, r) => DivisionFree(l) && DivisionFree(r)
    case Div(_, _) => false
    case Rem(_, _) => false
    case Neg(x) => DivisionFree(x)
    case Abs(x) => DivisionFree(x)
  }

  /**
    A tree without `/` and `%` has one value, whatever the floating-point
    quotient and remainder are: the rest of the evaluation is fixed.
  */
  lemma {:induction false} EvalDivisionFree(e: Expr, a: Arith, b: Arith)
    requires DivisionFree(e)
    ensures Eval(e, a) == Eval(e, b)
  {
    match e
    case Const(_) =>
    case Add(l, r) => EvalDivisionFree(l, a, b); EvalDivisionFree(r, a, b);
    case Sub(l, r) => EvalDivisionFree(l, a, b); EvalDivisionFree(r, a, b);
    case Mul(l, r) =>
      EvalDivisionFree(l, a, b);
      EvalDivisionFree(r, a, b);
      ProductOfEqualValues(l, r, a, b);
    case Neg(x) => EvalDivisionFree(x, a, b);
    case Abs(x) => EvalDivisionFree(x, a, b);
  }

  /** A product whose operands keep their values keeps its value. */
  lemma ProductOfEqualValues(l: Expr, r: Expr, a: Arith, b: Arith)
    requires Eval(l, a) == Eval(l, b) && Eval(r, a) == Eval(r, b)
    ensures Eval(Mul(l, r), a) == Eval(Mul(l, r), b)
  {
    EvalProduct(l, r, a);
    EvalProduct(l, r, b);
  }

  /**
    Each binary node applies its operator to the left value and then the
    right value, in that order: swapping the operands of a difference
    negates it.
  */
  lemma EvalOperands(l: Expr, r: Expr, ar: Arith)
    ensures Eval(Add(l, r), ar) == Eval(l, ar) + Eval(r, ar)
    ensures Eval(Sub(l, r), ar) == Eval(l, ar) - Eval(r, ar) == -Eval(Sub(r, l), ar)
    ensures Eval(Div(l, r), ar) == ar.quot(Eval(l, ar), Eval(r, ar))
    ensures Eval(Rem(l, r), ar) == ar.rem(Eval(l, ar), Eval(r, ar))
  {
  }

  /** A product multiplies the value of its left operand by the value of its right operand. */
  lemma EvalProduct(l: Expr, r: Expr, ar: Arith)
    ensures Eval(Mul(l, r), ar) == Eval(l, ar) * Eval(r, ar)
  {
  }

  /** An `Abs` node is never negative, is its operand's value or its negation, ignores a negation below it, and is idempotent. */
  lemma EvalAbs(e: Expr, ar: Arith)
    ensures Eval(Abs(e), ar) >= 0.0
    ensures Eval(Abs(e), ar) == Eval(e, ar) || Eval(Abs(e), ar) == -Eval(e, ar)
    ensures Eval(Abs(Neg(e)), ar) == Eval(Abs(e), ar)
    ensures Eval(Abs(Abs(e)), ar) == Eval(Abs(e), ar)
  {
  }

  /** Two negations cancel: the value of `Neg(Neg(e))` is the value of `e`. */
  lemma EvalNegNeg(e: Expr, ar: Arith)
    ensures Eval(Neg(Neg(e)), ar) == Eval(e, ar)
  {
  }

  /** `n` nested negations of `e`. */
  function Negated(e: Expr, n: nat): (ne: Expr)
    ensures n > 0 ==> ne.Neg?
  {
    if n == 0 then e else Neg(Negated(e, n - 1))
  }

  /** An even number of negations leaves the value unchanged, an odd number negates it. */
  lemma {:induction false} EvalNegated(e: Expr, n: nat, ar: Arith)
    ensures Eval(Negated(e, n), ar) == if n % 2 == 0 then Eval(e, ar) else -Eval(e, ar)
  {
    if n > 0 {
      EvalNegated(e, n - 1, ar);
    }
  }
}
