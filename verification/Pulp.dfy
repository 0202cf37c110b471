/**
  The modelling layer the formulation writes into: affine expressions over decision variables,
  linear and integrality constraints, and a problem object that only ever grows.
 */
module Pulp {
  import opened Plans

  datatype Expr =
    | Num(r: real)
    | Use(v: Var)
    | Add(left: Expr, right: Expr)
    | Scale(k: real, e: Expr)

  function Eval(e: Expr, x: Assignment): real {
    match e
    case Num(r) => r
    case Use(v) => Value(x, v)
    case Add(l, r) => Eval(l, x) + Eval(r, x)
    case Scale(k, f) => k * Eval(f, x)
  }

  function Const(r: real): (e: Expr)
    ensures forall x :: Eval(e, x) == r
  {
    Num(r)
  }

  function Of(v: Var): (e: Expr)
    ensures forall x :: Eval(e, x) == Value(x, v)
  {
    Use(v)
  }

  function Plus(a: Expr, b: Expr): (e: Expr)
    ensures forall x :: Eval(e, x) == Eval(a, x) + Eval(b, x)
  {
    Add(a, b)
  }

  function Minus(a: Expr, b: Expr): (e: Expr)
    ensures forall x :: Eval(e, x) == Eval(a, x) - Eval(b, x)
  {
    assert forall x :: Eval(Scale(-1.0, b), x) == -Eval(b, x);
    Add(a, Scale(-1.0, b))
  }

  function Times(k: real, a: Expr): (e: Expr)
    ensures forall x :: Eval(e, x) == k * Eval(a, x)
  {
    Scale(k, a)
  }

  /** `pulp.lpSum` over a list of terms. */
  function LpSum(terms: seq<Expr>): Expr {
    if terms == [] then Num(0.0) else Add(LpSum(terms[..|terms| - 1]), terms[|terms| - 1])
  }

  lemma LpSumAppend(terms: seq<Expr>, e: Expr, x: Assignment)
    ensures Eval(LpSum(terms + [e]), x) == Eval(LpSum(terms), x) + Eval(e, x)
  {
    assert (terms + [e])[..|terms|] == terms;
  }

  lemma {:induction false} LpSumConcat(a: seq<Expr>, b: seq<Expr>, x: Assignment)
    ensures Eval(LpSum(a + b), x) == Eval(LpSum(a), x) + Eval(LpSum(b), x)
  {
    if b == [] {
      assert a + b == a;
    } else {
      var c := b[..|b| - 1];
      LpSumConcat(a, c, x);
      assert a + b == (a + c) + [b[|b| - 1]];
      LpSumAppend(a + c, b[|b| - 1], x);
    }
  }

  datatype Constraint =
    | AtMost(lhs: Expr, rhs: Expr)
    | Equal(lhs: Expr, rhs: Expr)
    | AtLeast(lhs: Expr, rhs: Expr)
    | Integral(v: Var)

  predicate Holds(c: Constraint, x: Assignment) {
    match c
    case AtMost(l, r) => Eval(l, x) <= Eval(r, x)
    case Equal(l, r) => Eval(l, x) == Eval(r, x)
    case AtLeast(l, r) => Eval(l, x) >= Eval(r, x)
    case Integral(v) => Value(x, v) == 0.0 || Value(x, v) == 1.0
  }

  predicate Sat(cs: seq<Constraint>, x: Assignment) {
    forall i :: 0 <= i < |cs| ==> Holds(cs[i], x)
  }

  class LpProblem {
    var constraints: seq<Constraint>
    var objective: Expr

    constructor ()
      ensures constraints == []
      ensures objective == Num(0.0)
    {
      constraints := [];
      objective := Num(0.0);
    }

    /** `prob += constraint`. */
    method Add(c: Constraint)
      modifies this`constraints
      ensures constraints == old(constraints) + [c]
      ensures forall x :: Sat(constraints, x) <==> Sat(old(constraints), x) && Holds(c, x)
    {
      ghost var was := constraints;
      constraints := constraints + [c];
      forall x ensures Sat(constraints, x) <==> Sat(was, x) && Holds(c, x) {
        assert constraints[|was|] == c;
        assert forall i :: 0 <= i < |was| ==> constraints[i] == was[i];
      }
    }

    /** `prob += expression`. */
    method Minimize(e: Expr)
      modifies this`objective
      ensures objective == e
    {
      objective := e;
    }

    /** A variable created with a lower and an upper bound. */
    method Bounds(v: Var, lo: real, hi: real)
      modifies this`constraints
      ensures forall x :: Sat(constraints, x) <==> Sat(old(constraints), x) && lo <= Value(x, v) <= hi
    {
      Add(AtLeast(Of(v), Const(lo)));
      Add(AtMost(Of(v), Const(hi)));
    }
  }
}
