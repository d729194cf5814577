/**
 * Real-number helpers shared by the solver and the plotter: `abs`, `max`,
 * `min`, `Double.sign`, `minOrNull`/`maxOrNull` of a non-empty list, and the
 * law that the foreign square root (kotlin.math.sqrt) is assumed to obey.
 * Floating point is modelled by `real`; no rounding is modelled.
 */
module RealMath {

  /** A closed range [lo, hi]; used for brackets, axis limits and y-bounds. */
  datatype Range = Range(lo: real, hi: real)

  function Abs(x: real): real {
    if x < 0.0 then -x else x
  }

  function Max(x: real, y: real): real {
    if x >= y then x else y
  }

  function Min(x: real, y: real): real {
    if x <= y then x else y
  }

  /** Kotlin's `Double.sign`: -1, 0 or 1 (as an integer tag). */
  function Sign(x: real): int {
    if x > 0.0 then 1 else if x < 0.0 then -1 else 0
  }

  /**
   * The square root is a foreign function; every operation that needs it
   * takes it as a parameter, and the facts that need its algebra require
   * that parameter to be a non-negative square root on [0, oo).
   */
  ghost predicate IsSqrt(sqrt: real -> real) {
    forall r :: 0.0 <= r ==> SqrtLawAt(sqrt, r)
  }

  /** sqrt(r) is a non-negative square root of r. */
  ghost predicate SqrtLawAt(sqrt: real -> real, r: real) {
    0.0 <= sqrt(r) && sqrt(r) * sqrt(r) == r
  }

  lemma SqrtLaw(sqrt: real -> real, r: real)
    requires IsSqrt(sqrt)
    requires 0.0 <= r
    ensures 0.0 <= sqrt(r) && sqrt(r) * sqrt(r) == r
  {
    assert SqrtLawAt(sqrt, r);
  }

  lemma SqrtPositive(sqrt: real -> real, r: real)
    requires IsSqrt(sqrt)
    requires 0.0 < r
    ensures 0.0 < sqrt(r)
  {
    SqrtLaw(sqrt, r);
  }

  /** The non-negative square root is unique. */
  lemma SqrtUnique(sqrt: real -> real, r: real, t: real)
    requires IsSqrt(sqrt)
    requires 0.0 <= t && t * t == r
    ensures sqrt(r) == t
  {
    var s := sqrt(r);
    SqrtLaw(sqrt, r);
    assert 0.0 <= s && s * s == r;
    assert (s - t) * (s + t) == 0.0;
    if s + t == 0.0 {
      assert s == 0.0 && t == 0.0;
    } else {
      assert s - t == 0.0;
    }
  }

  /** `minOrNull()!!` of a non-empty list. */
  function MinOf(s: seq<real>): (m: real)
    requires s != []
    ensures m in s
    ensures forall y :: y in s ==> m <= y
  {
    if |s| == 1 then s[0]
    else
      assert s == [s[0]] + s[1..];
      Min(s[0], MinOf(s[1..]))
  }

  /** `maxOrNull()!!` of a non-empty list. */
  function MaxOf(s: seq<real>): (m: real)
    requires s != []
    ensures m in s
    ensures forall y :: y in s ==> y <= m
  {
    if |s| == 1 then s[0]
    else
      assert s == [s[0]] + s[1..];
      Max(s[0], MaxOf(s[1..]))
  }
}
