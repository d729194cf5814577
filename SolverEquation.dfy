/**
 * The evaluators used by the solver and by the plotter: the equation
 * f(x, a) = sqrt(x + a) - 1/x, whose roots solve sqrt(x + a) = 1/x, and the
 * iteration map phi(x, a) whose fixed points are those roots. "Undefined"
 * (Kotlin `null`) is `None`.
 */
module SolverEquation {
  import opened Wrappers
  import opened RealMath

  /** `Equation.f`: undefined outside x + a >= 0 or at x == 0, never failing otherwise. */
  function F(sqrt: real -> real, x: real, a: real): (r: Option<real>)
    ensures r.None? <==> (x + a < 0.0 || x == 0.0)
    ensures r.Some? ==> r.value == sqrt(x + a) - 1.0 / x
  {
    if x + a < 0.0 then None
    else if x == 0.0 then None
    else Some(sqrt(x + a) - 1.0 / x)
  }

  /**
   * `Equation.phi`: 1/sqrt(x + a) for a >= 0 and the transformed map
   * 1/x^2 - a for a < 0, with the same domain guard in both branches.
   */
  function Phi(sqrt: real -> real, x: real, a: real): (r: Option<real>)
    requires IsSqrt(sqrt)
    ensures r.None? <==> (x <= 0.0 || x + a < 0.0)
  {
    if a >= 0.0 then
      if x <= 0.0 || x + a < 0.0 then None
      else
        SqrtPositive(sqrt, x + a);
        Some(1.0 / sqrt(x + a))
    else
      if x <= 0.0 || x + a < 0.0 then None
      else Some(1.0 / (x * x) - a)
  }

  /** For a >= 0 a defined phi has x + a > 0, so it is 1/sqrt(x + a) and strictly positive. */
  lemma PhiNonNegativeBranch(sqrt: real -> real, x: real, a: real)
    requires IsSqrt(sqrt)
    requires a >= 0.0 && Phi(sqrt, x, a).Some?
    ensures x + a > 0.0 && sqrt(x + a) > 0.0
    ensures Phi(sqrt, x, a).value == 1.0 / sqrt(x + a)
    ensures Phi(sqrt, x, a).value > 0.0
  {
    SqrtPositive(sqrt, x + a);
  }

  /** For a < 0 a defined phi is 1/x^2 - a, which exceeds -a > 0. */
  lemma PhiNegativeBranch(sqrt: real -> real, x: real, a: real)
    requires IsSqrt(sqrt)
    requires a < 0.0 && Phi(sqrt, x, a).Some?
    ensures Phi(sqrt, x, a).value == 1.0 / (x * x) - a
    ensures Phi(sqrt, x, a).value > -a > 0.0
  {
    assert x * x > 0.0;
    assert 1.0 / (x * x) > 0.0;
  }

  /** Every value phi produces is again a point where f (and phi) are defined. */
  lemma PhiStaysInDomain(sqrt: real -> real, x: real, a: real)
    requires IsSqrt(sqrt)
    requires Phi(sqrt, x, a).Some?
    ensures Phi(sqrt, x, a).value > 0.0
    ensures Phi(sqrt, x, a).value + a > 0.0
    ensures F(sqrt, Phi(sqrt, x, a).value, a).Some?
  {
    if a >= 0.0 {
      PhiNonNegativeBranch(sqrt, x, a);
    } else {
      PhiNegativeBranch(sqrt, x, a);
    }
  }

  /** 1/s == x exactly when s == 1/x, for positive s and x. */
  lemma ReciprocalSwap(s: real, x: real)
    requires s > 0.0 && x > 0.0
    ensures 1.0 / s == x <==> s == 1.0 / x
  {
    if 1.0 / s == x {
      assert s * x == 1.0;
    }
  }

  lemma ReciprocalSquare(x: real)
    requires x > 0.0
    ensures 1.0 / x > 0.0
    ensures (1.0 / x) * (1.0 / x) == 1.0 / (x * x)
  {
  }

  /**
   * phi is the transformed equation: on the domain of both maps, x is a
   * fixed point of phi exactly when x is a root of f, in either branch.
   */
  lemma FixedPointIffRoot(sqrt: real -> real, x: real, a: real)
    requires IsSqrt(sqrt)
    requires x > 0.0 && x + a >= 0.0
    ensures Phi(sqrt, x, a).Some? && F(sqrt, x, a).Some?
    ensures Phi(sqrt, x, a).value == x <==> F(sqrt, x, a).value == 0.0
  {
    var s := sqrt(x + a);
    var inv := 1.0 / x;
    assert F(sqrt, x, a).value == 0.0 <==> s == inv;
    if a >= 0.0 {
      SqrtPositive(sqrt, x + a);
      ReciprocalSwap(s, x);
    } else {
      ReciprocalSquare(x);
      if 1.0 / (x * x) - a == x {
        SqrtUnique(sqrt, x + a, inv);
      }
      if s == inv {
        SqrtLaw(sqrt, x + a);
      }
    }
  }
}
