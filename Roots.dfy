/**
 * The solver of sqrt(x + a) = 1/x: the bracket scan, the fixed-point
 * iteration and the orchestration that chains them and prepares the full
 * and zoomed plots. The callback of computeRoots becomes the returned
 * Outcome; parsing (String.toDouble) and the square root are parameters.
 */
module Roots {
  import opened Wrappers
  import opened RealMath
  import opened SolverEquation
  import opened Plotter

  /** Tolerance and iteration cap of the fixed-point iteration. */
  const EPS: real := 0.001
  const MAX_ITERATIONS: nat := 5000
  /** The bracket scan stops once its right end reaches this. */
  const SCAN_LIMIT: real := 100.0
  /** Offset that keeps the start of the scan inside the domain. */
  const DOMAIN_MARGIN: real := 0.00001
  /** Half-width of the zoomed view around the root. */
  const ZOOM_PADDING: real := 0.5

  datatype RootResult = RootResult(
    root: real,
    iterations: nat,
    initialGuess: real,
    fValue: real,
    fullPlot: Plot,
    zoomedPlot: Plot)

  /** The three failure messages, as tags carrying the numbers they print. */
  datatype SolveError =
    | ParseError
    | NoRoot(lowBound: real)
    | NotConverged(initialGuess: real)

  /** Exactly one of: a result (with an empty message) or a failure message. */
  datatype Outcome = Solved(result: RootResult) | Failed(error: SolveError)

  // ---------------------------------------------------------------- parsing

  /** `replace(',', '.')`: every comma becomes a dot, nothing else changes. */
  function ReplaceCommas(s: string): (r: string)
    ensures |r| == |s|
    ensures forall i :: 0 <= i < |s| ==> r[i] == if s[i] == ',' then '.' else s[i]
  {
    if s == [] then []
    else [if s[0] == ',' then '.' else s[0]] + ReplaceCommas(s[1..])
  }

  /** After the replacement there is no comma left, and replacing again changes nothing. */
  lemma ReplaceCommasIdempotent(s: string)
    ensures ',' !in ReplaceCommas(s)
    ensures ReplaceCommas(ReplaceCommas(s)) == ReplaceCommas(s)
  {
  }

  /**
   * Texts that differ only in writing the decimal separator as ',' or '.'
   * reach the parser as the same text, so they parse alike.
   */
  lemma DecimalCommaAccepted(s: string, t: string)
    requires |s| == |t|
    requires forall i :: 0 <= i < |s| ==> s[i] == t[i] || (s[i] in ",." && t[i] in ",.")
    ensures ReplaceCommas(s) == ReplaceCommas(t)
  {
    var rs, rt := ReplaceCommas(s), ReplaceCommas(t);
    forall i | 0 <= i < |s| ensures rs[i] == rt[i] {
      if s[i] != t[i] {
        assert s[i] in ",." && t[i] in ",.";
      }
    }
  }

  /** "0,5" and "0.5" both reach the parser as "0.5". */
  lemma DecimalCommaExample()
    ensures ReplaceCommas("0,5") == ReplaceCommas("0.5") == "0.5"
  {
    DecimalCommaAccepted("0,5", "0.5");
    var r := ReplaceCommas("0.5");
    assert r[0] == '0' && r[1] == '.' && r[2] == '5';
  }

  // ----------------------------------------------------------- bracket scan

  /** `max(0.0, -aVal) + 1e-5`. */
  function LowBound(a: real): (r: real)
    ensures r >= DOMAIN_MARGIN && r + a >= DOMAIN_MARGIN
    ensures r == DOMAIN_MARGIN || r + a == DOMAIN_MARGIN
  {
    Max(0.0, -a) + DOMAIN_MARGIN
  }

  /** Every point from the lower bound on is inside the domain of f. */
  lemma LowBoundInDomain(sqrt: real -> real, a: real, x: real)
    requires x >= LowBound(a)
    ensures x > 0.0 && x + a > 0.0
    ensures F(sqrt, x, a).Some?
  {
  }

  /** The first left end of the scan window. */
  function ScanStart(low: real, a: real): real {
    if a < 0.0 then Abs(a) + DOMAIN_MARGIN else low
  }

  /** Both arms of the scan's start agree with the lower bound. */
  lemma ScanStartIsLowBound(a: real)
    ensures ScanStart(LowBound(a), a) == LowBound(a)
  {
  }

  /** The left end of the k-th unit window. */
  function WindowLeft(start: real, k: nat): real {
    start + k as real
  }

  predicate SameSign(u: Option<real>, v: Option<real>) {
    u.Some? && v.Some? && Sign(u.value) == Sign(v.value)
  }

  /** The scan moves past window k: f has one sign at both ends and the right end is short of the limit. */
  predicate KeepsScanning(sqrt: real -> real, a: real, start: real, k: nat) {
    var x1 := WindowLeft(start, k);
    SameSign(F(sqrt, x1, a), F(sqrt, x1 + 1.0, a)) && x1 + 1.0 < SCAN_LIMIT
  }

  /** [x1, x1 + 1] brackets a root: f is defined at both ends with different signs. */
  predicate Brackets(sqrt: real -> real, a: real, x1: real) {
    F(sqrt, x1, a).Some? && F(sqrt, x1 + 1.0, a).Some? &&
    Sign(F(sqrt, x1, a).value) != Sign(F(sqrt, x1 + 1.0, a).value)
  }

  /** The scan starting at `start` stops at window k. */
  predicate ScanStopsAt(sqrt: real -> real, a: real, start: real, k: nat) {
    (forall j: nat :: j < k ==> KeepsScanning(sqrt, a, start, j)) &&
    !KeepsScanning(sqrt, a, start, k)
  }

  /** A bracket and the initial guess at its midpoint. */
  datatype Bracket = Bracket(interval: Range, guess: real)

  /**
   * `findRootInterval`: slides [x1, x1 + 1] right by 1 while f has the same
   * sign at both ends and x2 < 100; the scan stops at some window k.
   */
  method FindRootInterval(sqrt: real -> real, low: real, a: real) returns (r: Option<Bracket>)
    ensures r.None? ==>
              exists k: nat :: ScanStopsAt(sqrt, a, ScanStart(low, a), k) &&
                               !Brackets(sqrt, a, WindowLeft(ScanStart(low, a), k))
    ensures r.Some? ==>
              exists k: nat :: ScanStopsAt(sqrt, a, ScanStart(low, a), k) &&
                               r.value.interval.lo == WindowLeft(ScanStart(low, a), k)
    ensures r.Some? ==>
              Brackets(sqrt, a, r.value.interval.lo) &&
              r.value.interval.hi == r.value.interval.lo + 1.0 &&
              r.value.guess == (r.value.interval.lo + r.value.interval.hi) / 2.0 &&
              r.value.interval.lo < r.value.guess < r.value.interval.hi
  {
    ghost var start := ScanStart(low, a);
    ghost var steps: nat := 0;
    var x1 := if a < 0.0 then Abs(a) + DOMAIN_MARGIN else low;
    var x2 := x1 + 1.0;
    var f1 := F(sqrt, x1, a);
    var f2 := F(sqrt, x2, a);
    while f1.Some? && f2.Some? && Sign(f1.value) == Sign(f2.value) && x2 < SCAN_LIMIT
      invariant x1 == WindowLeft(start, steps) && x2 == x1 + 1.0
      invariant f1 == F(sqrt, x1, a) && f2 == F(sqrt, x2, a)
      invariant forall j: nat :: j < steps ==> KeepsScanning(sqrt, a, start, j)
      decreases (SCAN_LIMIT - x2).Floor
    {
      assert KeepsScanning(sqrt, a, start, steps);
      x1 := x2;
      x2 := x2 + 1.0;
      f1 := f2;
      f2 := F(sqrt, x2, a);
      steps := steps + 1;
    }
    assert ScanStopsAt(sqrt, a, start, steps);
    if f1.None? || f2.None? || Sign(f1.value) == Sign(f2.value) {
      return None;
    }
    var guess := (x1 + x2) / 2.0;
    r := Some(Bracket(Range(x1, x2), guess));
  }

  /** The scan stops at one window only, so its result is determined by low and a. */
  lemma ScanStopUnique(sqrt: real -> real, a: real, start: real, k: nat, m: nat)
    requires ScanStopsAt(sqrt, a, start, k) && ScanStopsAt(sqrt, a, start, m)
    ensures k == m
  {
  }

  /**
   * From the lower bound f is always defined, so the scan fails only when it
   * has reached the limit with f of one sign at both ends of every window.
   */
  lemma {:induction false} ScanFailsOnlyAtLimit(sqrt: real -> real, a: real, k: nat)
    requires ScanStopsAt(sqrt, a, LowBound(a), k)
    requires !Brackets(sqrt, a, WindowLeft(LowBound(a), k))
    ensures WindowLeft(LowBound(a), k) + 1.0 >= SCAN_LIMIT
    ensures forall j: nat :: j <= k ==> SameSign(F(sqrt, WindowLeft(LowBound(a), j), a),
                                                 F(sqrt, WindowLeft(LowBound(a), j) + 1.0, a))
  {
    var low := LowBound(a);
    var x1 := WindowLeft(low, k);
    LowBoundInDomain(sqrt, a, x1);
    LowBoundInDomain(sqrt, a, x1 + 1.0);
    assert SameSign(F(sqrt, x1, a), F(sqrt, x1 + 1.0, a));
    forall j: nat | j <= k
      ensures SameSign(F(sqrt, WindowLeft(low, j), a), F(sqrt, WindowLeft(low, j) + 1.0, a))
    {
      if j < k {
        assert KeepsScanning(sqrt, a, low, j);
      }
    }
  }

  // ------------------------------------------------------ fixed-point loop

  /** The n-th iterate of phi from x0, if every step so far was defined. */
  function Orbit(sqrt: real -> real, x0: real, a: real, n: nat): Option<real>
    requires IsSqrt(sqrt)
  {
    if n == 0 then Some(x0)
    else match Orbit(sqrt, x0, a, n - 1)
      case None => None
      case Some(x) => Phi(sqrt, x, a)
  }

  /** Step n moves by less than the tolerance. */
  predicate Settles(sqrt: real -> real, x0: real, a: real, n: nat)
    requires IsSqrt(sqrt)
  {
    Orbit(sqrt, x0, a, n).Some? && Orbit(sqrt, x0, a, n + 1).Some? &&
    Abs(Orbit(sqrt, x0, a, n + 1).value - Orbit(sqrt, x0, a, n).value) < EPS
  }

  /** Step n is the first that settles, and it comes before the cap. */
  predicate FirstSettle(sqrt: real -> real, x0: real, a: real, n: nat)
    requires IsSqrt(sqrt)
  {
    n < MAX_ITERATIONS && Settles(sqrt, x0, a, n) &&
    forall j: nat :: j < n ==> !Settles(sqrt, x0, a, j)
  }

  /** Once an iterate is undefined, all later ones are. */
  lemma {:induction false} OrbitStaysUndefined(sqrt: real -> real, x0: real, a: real, k: nat, m: nat)
    requires IsSqrt(sqrt)
    requires Orbit(sqrt, x0, a, k).None? && k <= m
    ensures Orbit(sqrt, x0, a, m).None?
  {
    if k < m {
      OrbitStaysUndefined(sqrt, x0, a, k, m - 1);
    }
  }

  /** The first settling step is unique, so the iteration's answer is determined. */
  lemma FirstSettleUnique(sqrt: real -> real, x0: real, a: real, n: nat, m: nat)
    requires IsSqrt(sqrt)
    requires FirstSettle(sqrt, x0, a, n) && FirstSettle(sqrt, x0, a, m)
    ensures n == m
  {
  }

  /** A settled value is phi of the previous iterate, so it is inside the domain of f. */
  lemma SettledInDomain(sqrt: real -> real, x0: real, a: real, n: nat)
    requires IsSqrt(sqrt)
    requires Settles(sqrt, x0, a, n)
    ensures Orbit(sqrt, x0, a, n + 1).value > 0.0
    ensures Orbit(sqrt, x0, a, n + 1).value + a > 0.0
    ensures F(sqrt, Orbit(sqrt, x0, a, n + 1).value, a).Some?
  {
    PhiStaysInDomain(sqrt, Orbit(sqrt, x0, a, n).value, a);
  }

  /** A fixed-point answer: the last iterate and the index of the step that settled. */
  datatype Fixed = Fixed(root: real, iterations: nat)

  /**
   * `iterationMethod`: x := phi(x) until a step moves by less than EPS,
   * failing when phi is undefined or after MAX_ITERATIONS steps.
   * `evaluations` counts the calls of phi.
   */
  method IterationMethod(sqrt: real -> real, x0: real, a: real)
    returns (r: Option<Fixed>, ghost evaluations: nat)
    requires IsSqrt(sqrt)
    ensures r.Some? ==> FirstSettle(sqrt, x0, a, r.value.iterations)
    ensures r.Some? ==> Orbit(sqrt, x0, a, r.value.iterations + 1) == Some(r.value.root)
    ensures r.Some? ==> Abs(r.value.root - Orbit(sqrt, x0, a, r.value.iterations).value) < EPS
    ensures r.None? ==> forall n: nat :: !FirstSettle(sqrt, x0, a, n)
    ensures evaluations <= MAX_ITERATIONS
    ensures r.Some? ==> evaluations == r.value.iterations + 1
  {
    var x := x0;
    var iterations: nat := 0;
    evaluations := 0;
    while iterations < MAX_ITERATIONS
      invariant iterations <= MAX_ITERATIONS && evaluations == iterations
      invariant Orbit(sqrt, x0, a, iterations) == Some(x)
      invariant forall j: nat :: j < iterations ==> !Settles(sqrt, x0, a, j)
    {
      var next := Phi(sqrt, x, a);
      evaluations := evaluations + 1;
      if next.None? {
        forall n: nat ensures !FirstSettle(sqrt, x0, a, n) {
          if n >= iterations {
            OrbitStaysUndefined(sqrt, x0, a, iterations + 1, n + 1);
          }
        }
        return None, evaluations;
      }
      var nextX := next.value;
      if Abs(nextX - x) < EPS {
        return Some(Fixed(nextX, iterations)), evaluations;
      }
      x := nextX;
      iterations := iterations + 1;
    }
    r := None;
  }

  // ---------------------------------------------------------- orchestration

  /** `createZoomedPlot`'s x-range: root +- 0.5, clipped on the left at the lower bound. */
  function ZoomedRange(root: real, low: real): (r: Range)
    ensures r.hi == root + ZOOM_PADDING
    ensures r.lo >= low && r.lo >= root - ZOOM_PADDING
    ensures r.lo == low || r.lo == root - ZOOM_PADDING
  {
    Range(Max(low, root - ZOOM_PADDING), root + ZOOM_PADDING)
  }

  /** Half-width of the full view: the largest of 1.5|root|, 1.5|initialGuess| and 10. */
  function FullHalfWidth(root: real, guess: real): (w: real)
    ensures w >= 10.0 && w >= Abs(root) * 1.5 && w >= Abs(guess) * 1.5
    ensures w == 10.0 || w == Abs(root) * 1.5 || w == Abs(guess) * 1.5
  {
    Max(Max(Abs(root) * 1.5, Abs(guess) * 1.5), 10.0)
  }

  /**
   * The zoomed view of a root in the domain is a proper interval from the
   * lower bound on, so every one of its grid points is sampled, in order.
   */
  lemma ZoomedViewFullySampled(sqrt: real -> real, a: real, root: real)
    requires root > 0.0 && root + a > 0.0
    ensures ZoomedRange(root, LowBound(a)).lo < ZoomedRange(root, LowBound(a)).hi
    ensures ZoomedRange(root, LowBound(a)).lo >= LowBound(a)
    ensures var v := ZoomedRange(root, LowBound(a));
            DefinedAt(sqrt, a, GridPoints(v.lo, v.hi)) == GridPoints(v.lo, v.hi)
  {
    var v := ZoomedRange(root, LowBound(a));
    GridWithin(v.lo, v.hi);
    var g := GridPoints(v.lo, v.hi);
    forall i | 0 <= i < |g| ensures F(sqrt, g[i], a).Some? {
      LowBoundInDomain(sqrt, a, g[i]);
    }
    DefinedEverywhere(sqrt, a, g);
  }

  /** `createZoomedPlot`: the plot of the zoomed view around the root, with both markers. */
  method CreateZoomedPlot(sqrt: real -> real, root: real, a: real, low: real, interval: Range,
                          initial: real, iterRoot: real)
    returns (p: Plot)
    ensures var v := ZoomedRange(root, low);
            DrawnFrom(sqrt, a, p, v.lo, v.hi, [interval], [initial], [iterRoot], true)
  {
    var viewMinX := Max(low, root - ZOOM_PADDING);
    var viewMaxX := root + ZOOM_PADDING;
    p := CreatePlot(sqrt, viewMinX, viewMaxX, a, [interval], [initial], [iterRoot], true);
  }

  /** The scan from the lower bound stops at window k, which has reached the limit without a sign change. */
  ghost predicate ScanExhausted(sqrt: real -> real, a: real, k: nat) {
    ScanStopsAt(sqrt, a, LowBound(a), k) &&
    !Brackets(sqrt, a, WindowLeft(LowBound(a), k)) &&
    WindowLeft(LowBound(a), k) + 1.0 >= SCAN_LIMIT
  }

  /** The scan from the lower bound stops at window k, a bracket whose midpoint is `guess`. */
  ghost predicate ScanBrackets(sqrt: real -> real, a: real, k: nat, guess: real) {
    ScanStopsAt(sqrt, a, LowBound(a), k) &&
    Brackets(sqrt, a, WindowLeft(LowBound(a), k)) &&
    guess == WindowLeft(LowBound(a), k) + 0.5
  }

  /**
   * What a produced result promises: fValue is f at the root; the full view is
   * [-w, w] with w = FullHalfWidth and the zoomed view is ZoomedRange, each drawn
   * from f with the bracket lines and the markers at the initial guess and the
   * root; the zoomed view keeps all 1001 grid points and its y-limits lie at
   * least 0.2 apart with fValue strictly between them.
   */
  ghost predicate ResultViews(sqrt: real -> real, a: real, res: RootResult) {
    var w := FullHalfWidth(res.root, res.initialGuess);
    var view := ZoomedRange(res.root, LowBound(a));
    var zoomed := res.zoomedPlot;
    F(sqrt, res.root, a) == Some(res.fValue) &&
    DrawnFrom(sqrt, a, res.fullPlot, -w, w, res.fullPlot.intervals, [res.initialGuess], [res.root], false) &&
    DrawnFrom(sqrt, a, zoomed, view.lo, view.hi, res.fullPlot.intervals, [res.initialGuess], [res.root], true) &&
    view.lo < view.hi &&
    zoomed.xValues == GridPoints(view.lo, view.hi) &&
    |zoomed.yValues| == POINTS + 1 &&
    zoomed.yLimits.hi - zoomed.yLimits.lo >= 2.0 * MIN_PADDING &&
    zoomed.yLimits.lo < res.fValue < zoomed.yLimits.hi
  }

  /** The full view's y-limits are symmetric about zero and at least 0.1 on each side. */
  lemma FullViewSymmetric(sqrt: real -> real, a: real, res: RootResult)
    requires ResultViews(sqrt, a, res)
    ensures res.fullPlot.yLimits.lo == -res.fullPlot.yLimits.hi
    ensures res.fullPlot.yLimits.hi >= MIN_HEIGHT
  {
  }

  /**
   * The zoomed plot of a root in the domain keeps every grid point, its
   * y-limits lie at least 0.2 apart and f at the root lies strictly between them.
   */
  lemma ZoomedPlotFacts(sqrt: real -> real, a: real, root: real, guess: real, fValue: real,
                        p: Plot, intervals: seq<Range>)
    requires root > 0.0 && root + a > 0.0
    requires F(sqrt, root, a) == Some(fValue)
    requires var v := ZoomedRange(root, LowBound(a));
             DrawnFrom(sqrt, a, p, v.lo, v.hi, intervals, [guess], [root], true)
    ensures var v := ZoomedRange(root, LowBound(a));
            v.lo < v.hi && p.xValues == GridPoints(v.lo, v.hi)
    ensures |p.yValues| == POINTS + 1
    ensures p.yLimits.hi - p.yLimits.lo >= 2.0 * MIN_PADDING
    ensures p.yLimits.lo < fValue < p.yLimits.hi
  {
    ZoomedViewFullySampled(sqrt, a, root);
    var v := ZoomedRange(root, LowBound(a));
    DefinedAtFacts(sqrt, a, GridPoints(v.lo, v.hi));
    assert [root][..0] == [];
    assert ValuesAt(sqrt, a, [root]) == [fValue];
    var specials := [fValue] + ValuesAt(sqrt, a, [guess]);
    assert fValue in specials;
    ZoomedBounds(p.yValues, specials);
  }

  /**
   * The tail of `computeRoots` once the root is known: fValue, the full view
   * and the zoomed view.
   */
  method BuildResult(sqrt: real -> real, a: real, lowBound: real, interval: Range,
                     initialGuess: real, root: real, iterations: nat)
    returns (res: RootResult)
    requires lowBound == LowBound(a)
    requires root > 0.0 && root + a > 0.0
    ensures res.root == root && res.iterations == iterations && res.initialGuess == initialGuess
    ensures res.fullPlot.intervals == [interval]
    ensures ResultViews(sqrt, a, res)
  {
    var fValue := match F(sqrt, root, a) case Some(v) => v case None => 0.0;

    var preXLimit := Max(Abs(root) * 1.5, Abs(initialGuess) * 1.5);
    var xLimit := Max(preXLimit, 10.0);
    var fullPlot := CreatePlot(sqrt, -xLimit, xLimit, a, [interval], [initialGuess], [root], false);
    var zoomedPlot := CreateZoomedPlot(sqrt, root, a, lowBound, interval, initialGuess, root);
    assert xLimit == FullHalfWidth(root, initialGuess);
    ZoomedPlotFacts(sqrt, a, root, initialGuess, fValue, zoomedPlot, [interval]);
    res := RootResult(root, iterations, initialGuess, fValue, fullPlot, zoomedPlot);
  }

  /** What `computeRoots` promises once the parameter has been parsed to `a`. */
  ghost predicate SolvedOrExplained(sqrt: real -> real, a: real, o: Outcome)
    requires IsSqrt(sqrt)
  {
    match o
    case Failed(ParseError) => false
    case Failed(NoRoot(lowBound)) =>
      lowBound == LowBound(a) && exists k: nat :: ScanExhausted(sqrt, a, k)
    case Failed(NotConverged(guess)) =>
      (exists k: nat :: ScanBrackets(sqrt, a, k, guess)) &&
      forall n: nat :: !FirstSettle(sqrt, guess, a, n)
    case Solved(res) =>
      (exists k: nat :: ScanBrackets(sqrt, a, k, res.initialGuess) &&
                        res.fullPlot.intervals == [Range(WindowLeft(LowBound(a), k), WindowLeft(LowBound(a), k) + 1.0)]) &&
      FirstSettle(sqrt, res.initialGuess, a, res.iterations) &&
      Orbit(sqrt, res.initialGuess, a, res.iterations + 1) == Some(res.root) &&
      ResultViews(sqrt, a, res)
  }

  /** The scan from the lower bound found the bracket `b`. */
  ghost predicate FoundBracket(sqrt: real -> real, a: real, b: Bracket) {
    (exists k: nat :: ScanStopsAt(sqrt, a, LowBound(a), k) && b.interval.lo == WindowLeft(LowBound(a), k)) &&
    Brackets(sqrt, a, b.interval.lo) &&
    b.interval.hi == b.interval.lo + 1.0 &&
    b.guess == (b.interval.lo + b.interval.hi) / 2.0
  }

  lemma NoRootExplained(sqrt: real -> real, a: real)
    requires IsSqrt(sqrt)
    requires exists k: nat :: ScanStopsAt(sqrt, a, LowBound(a), k) && !Brackets(sqrt, a, WindowLeft(LowBound(a), k))
    ensures SolvedOrExplained(sqrt, a, Failed(NoRoot(LowBound(a))))
  {
    var k: nat :| ScanStopsAt(sqrt, a, LowBound(a), k) && !Brackets(sqrt, a, WindowLeft(LowBound(a), k));
    ScanFailsOnlyAtLimit(sqrt, a, k);
    assert ScanExhausted(sqrt, a, k);
  }

  lemma NotConvergedExplained(sqrt: real -> real, a: real, b: Bracket)
    requires IsSqrt(sqrt)
    requires FoundBracket(sqrt, a, b)
    requires forall n: nat :: !FirstSettle(sqrt, b.guess, a, n)
    ensures SolvedOrExplained(sqrt, a, Failed(NotConverged(b.guess)))
  {
    var k: nat :| ScanStopsAt(sqrt, a, LowBound(a), k) && b.interval.lo == WindowLeft(LowBound(a), k);
    assert ScanBrackets(sqrt, a, k, b.guess);
  }

  /** The bracket found by the scan is the window at which it stopped. */
  lemma BracketIsStoppingWindow(sqrt: real -> real, a: real, b: Bracket, intervals: seq<Range>)
    requires FoundBracket(sqrt, a, b)
    requires intervals == [b.interval]
    ensures exists k: nat :: ScanBrackets(sqrt, a, k, b.guess) &&
                             intervals == [Range(WindowLeft(LowBound(a), k), WindowLeft(LowBound(a), k) + 1.0)]
  {
    var k: nat :| ScanStopsAt(sqrt, a, LowBound(a), k) && b.interval.lo == WindowLeft(LowBound(a), k);
    assert ScanBrackets(sqrt, a, k, b.guess);
  }

  lemma SolvedExplained(sqrt: real -> real, a: real, b: Bracket, res: RootResult)
    requires IsSqrt(sqrt)
    requires FoundBracket(sqrt, a, b)
    requires res.initialGuess == b.guess && res.fullPlot.intervals == [b.interval]
    requires FirstSettle(sqrt, res.initialGuess, a, res.iterations)
    requires Orbit(sqrt, res.initialGuess, a, res.iterations + 1) == Some(res.root)
    requires ResultViews(sqrt, a, res)
    ensures SolvedOrExplained(sqrt, a, Solved(res))
  {
    BracketIsStoppingWindow(sqrt, a, b, res.fullPlot.intervals);
  }

  /** The body of `computeRoots` after parsing: scan, iterate, build the result. */
  method SolveFor(sqrt: real -> real, a: real) returns (o: Outcome)
    requires IsSqrt(sqrt)
    ensures SolvedOrExplained(sqrt, a, o)
  {
    var lowBound := Max(0.0, -a) + DOMAIN_MARGIN;
    ScanStartIsLowBound(a);
    assert ScanStart(lowBound, a) == lowBound == LowBound(a);

    var scan := FindRootInterval(sqrt, lowBound, a);
    if scan.None? {
      NoRootExplained(sqrt, a);
      return Failed(NoRoot(lowBound));
    }
    var interval := scan.value.interval;
    var initialGuess := scan.value.guess;
    assert FoundBracket(sqrt, a, scan.value);

    var fixed, evaluations := IterationMethod(sqrt, initialGuess, a);
    if fixed.None? {
      NotConvergedExplained(sqrt, a, scan.value);
      return Failed(NotConverged(initialGuess));
    }
    var root := fixed.value.root;
    var iterations := fixed.value.iterations;

    SettledInDomain(sqrt, initialGuess, a, iterations);
    var result := BuildResult(sqrt, a, lowBound, interval, initialGuess, root, iterations);
    SolvedExplained(sqrt, a, scan.value, result);
    o := Solved(result);
  }

  /**
   * `computeRoots`: replace the decimal commas, parse, then solve. Exactly
   * one outcome: the parse error exactly when parsing fails, otherwise what
   * SolvedOrExplained describes.
   */
  method ComputeRoots(sqrt: real -> real, parse: string -> Option<real>, input: string)
    returns (o: Outcome)
    requires IsSqrt(sqrt)
    ensures o == Failed(ParseError) <==> parse(ReplaceCommas(input)).None?
    ensures parse(ReplaceCommas(input)).Some? ==>
              SolvedOrExplained(sqrt, parse(ReplaceCommas(input)).value, o)
  {
    var text := ReplaceCommas(input);
    var parsed := parse(text);
    if parsed.None? {
      return Failed(ParseError);
    }
    o := SolveFor(sqrt, parsed.value);
  }
}
