/**
 * The alternate evaluator kept in the user-interface package. It is not
 * used by the solver or the plotter; its guards differ from the solver's,
 * and its phi is 1/sqrt(x + a) whatever the sign of a.
 */
module UiEquation {
  import opened Wrappers
  import opened RealMath
  import SolverEquation

  /** The alternate f: undefined exactly when x <= 0 or x + a < 0. */
  function F(sqrt: real -> real, x: real, a: real): (r: Option<real>)
    ensures r.None? <==> (x <= 0.0 || x + a < 0.0)
    ensures r.Some? ==> r.value == sqrt(x + a) - 1.0 / x
  {
    if x <= 0.0 || x + a < 0.0 then None
    else Some(sqrt(x + a) - 1.0 / x)
  }

  /** The alternate phi: undefined exactly when x + a <= 0, and then strictly positive. */
  function Phi(sqrt: real -> real, x: real, a: real): (r: Option<real>)
    requires IsSqrt(sqrt)
    ensures r.None? <==> x + a <= 0.0
    ensures r.Some? ==> r.value > 0.0
  {
    if x + a <= 0.0 then None
    else
      SqrtPositive(sqrt, x + a);
      Some(1.0 / sqrt(x + a))
  }

  /**
   * Wherever the alternate f is defined the solver's f is defined and agrees;
   * the converse fails (at x = -1, a = 2), so the domain is a strict subset.
   */
  lemma FRefinesSolverF(sqrt: real -> real, x: real, a: real)
    ensures F(sqrt, x, a).Some? ==> SolverEquation.F(sqrt, x, a) == F(sqrt, x, a)
    ensures SolverEquation.F(sqrt, -1.0, 2.0).Some? && F(sqrt, -1.0, 2.0).None?
  {
  }

  /** The alternate phi is defined to the left of zero, where the solver's phi is not. */
  lemma PhiDefinedLeftOfZero(sqrt: real -> real, x: real, a: real)
    requires IsSqrt(sqrt)
    requires x <= 0.0 && x + a > 0.0
    ensures Phi(sqrt, x, a).Some? && SolverEquation.Phi(sqrt, x, a).None?
  {
  }

  /** The alternate phi has the same fixed points as the equation has roots. */
  lemma FixedPointIffRoot(sqrt: real -> real, x: real, a: real)
    requires IsSqrt(sqrt)
    requires x > 0.0 && x + a > 0.0
    ensures Phi(sqrt, x, a).Some? && F(sqrt, x, a).Some?
    ensures Phi(sqrt, x, a).value == x <==> F(sqrt, x, a).value == 0.0
  {
    var s := sqrt(x + a);
    SqrtPositive(sqrt, x + a);
    var inv := 1.0 / x;
    assert inv * x == 1.0;
    if 1.0 / s == x {
      assert s * x == 1.0;
      assert s == inv;
    }
    if s == inv {
      assert 1.0 / s == x;
    }
  }

  /** For negative a the two phi maps differ: at x = 2, a = -1 they give 1 and 5/4. */
  lemma VariantsDisagreeForNegativeA(sqrt: real -> real)
    requires IsSqrt(sqrt)
    ensures Phi(sqrt, 2.0, -1.0) == Some(1.0)
    ensures SolverEquation.Phi(sqrt, 2.0, -1.0) == Some(1.25)
  {
    SqrtUnique(sqrt, 1.0, 1.0);
  }
}
