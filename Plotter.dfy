/**
 * The numeric part of the plotter: sampling f over an x-range, the
 * y-bounds of a plot, the symmetric y-limits of the full view and the
 * marker lists. A "plot" is the data a chart would be drawn from; the
 * drawing itself is not modelled. f is the solver's evaluator.
 */
module Plotter {
  import opened Wrappers
  import opened RealMath
  import opened SolverEquation

  /** Number of sampling steps; the grid has POINTS + 1 points. */
  const POINTS: nat := 1000
  /** Zoomed bounds ignore samples whose magnitude reaches this. */
  const OUTLIER_LIMIT: real := 1000.0
  /** Smallest height of a y-range, and smallest padding of a zoomed one. */
  const MIN_HEIGHT: real := 0.1
  const MIN_PADDING: real := 0.1

  /** The i-th grid point of [xMin, xMax]. */
  function Grid(xMin: real, xMax: real, i: int): real {
    xMin + (i as real) * (xMax - xMin) / (POINTS as real)
  }

  /** The grid points for i in 0..POINTS, in order. */
  function GridPoints(xMin: real, xMax: real): seq<real> {
    seq(POINTS + 1, i => Grid(xMin, xMax, i))
  }

  ghost predicate StrictlyIncreasing(s: seq<real>) {
    forall i, j :: 0 <= i < j < |s| ==> s[i] < s[j]
  }

  /** The points of xs where f is defined, in order. */
  function DefinedAt(sqrt: real -> real, a: real, xs: seq<real>): seq<real> {
    if xs == [] then []
    else
      var x := xs[|xs| - 1];
      var rest := DefinedAt(sqrt, a, xs[..|xs| - 1]);
      if F(sqrt, x, a).Some? then rest + [x] else rest
  }

  /** The values of f at the points of xs where it is defined, in order. */
  function ValuesAt(sqrt: real -> real, a: real, xs: seq<real>): seq<real> {
    if xs == [] then []
    else
      var x := xs[|xs| - 1];
      var rest := ValuesAt(sqrt, a, xs[..|xs| - 1]);
      if F(sqrt, x, a).Some? then rest + [F(sqrt, x, a).value] else rest
  }

  /** The kept points and values line up: equal lengths, each value is f there, all defined points kept. */
  lemma {:induction false} DefinedAtFacts(sqrt: real -> real, a: real, xs: seq<real>)
    ensures |DefinedAt(sqrt, a, xs)| == |ValuesAt(sqrt, a, xs)| <= |xs|
    ensures forall i :: 0 <= i < |DefinedAt(sqrt, a, xs)| ==>
              F(sqrt, DefinedAt(sqrt, a, xs)[i], a) == Some(ValuesAt(sqrt, a, xs)[i])
    ensures forall x :: x in DefinedAt(sqrt, a, xs) <==> x in xs && F(sqrt, x, a).Some?
  {
    if xs != [] {
      var init := xs[..|xs| - 1];
      DefinedAtFacts(sqrt, a, init);
      assert xs == init + [xs[|xs| - 1]];
    }
  }

  /** Filtering keeps the order, so increasing points stay increasing. */
  lemma {:induction false} DefinedAtIncreasing(sqrt: real -> real, a: real, xs: seq<real>)
    requires StrictlyIncreasing(xs)
    ensures StrictlyIncreasing(DefinedAt(sqrt, a, xs))
  {
    if xs != [] {
      var init := xs[..|xs| - 1];
      var last := xs[|xs| - 1];
      DefinedAtIncreasing(sqrt, a, init);
      DefinedAtFacts(sqrt, a, init);
      var rest := DefinedAt(sqrt, a, init);
      forall i | 0 <= i < |rest| ensures rest[i] < last {
        assert rest[i] in init;
        var k :| 0 <= k < |init| && init[k] == rest[i];
        assert xs[k] == init[k];
      }
    }
  }

  /** Where f is defined at every point nothing is dropped. */
  lemma {:induction false} DefinedEverywhere(sqrt: real -> real, a: real, xs: seq<real>)
    requires forall i :: 0 <= i < |xs| ==> F(sqrt, xs[i], a).Some?
    ensures DefinedAt(sqrt, a, xs) == xs
  {
    if xs != [] {
      var init := xs[..|xs| - 1];
      DefinedEverywhere(sqrt, a, init);
      assert xs == init + [xs[|xs| - 1]];
    }
  }

  lemma GridIncreasing(xMin: real, xMax: real)
    requires xMin < xMax
    ensures StrictlyIncreasing(GridPoints(xMin, xMax))
  {
    var g := GridPoints(xMin, xMax);
    var d := xMax - xMin;
    forall i, j | 0 <= i < j < |g| ensures g[i] < g[j] {
      assert g[j] - g[i] == ((j - i) as real) * d / (POINTS as real);
      assert ((j - i) as real) * d > 0.0;
    }
  }

  lemma GridPointWithin(xMin: real, xMax: real, i: int)
    requires xMin <= xMax && 0 <= i <= POINTS
    ensures xMin <= Grid(xMin, xMax, i) <= xMax
  {
    var d := xMax - xMin;
    var t := (i as real) * d;
    assert 0.0 <= t;
    assert (POINTS as real) * d - t == ((POINTS - i) as real) * d;
    assert t <= (POINTS as real) * d;
    assert t / (POINTS as real) <= d;
  }

  lemma GridWithin(xMin: real, xMax: real)
    requires xMin <= xMax
    ensures forall i :: 0 <= i < |GridPoints(xMin, xMax)| ==> xMin <= GridPoints(xMin, xMax)[i] <= xMax
  {
    forall i | 0 <= i < |GridPoints(xMin, xMax)|
      ensures xMin <= GridPoints(xMin, xMax)[i] <= xMax
    {
      GridPointWithin(xMin, xMax, i);
    }
  }

  /**
   * The sampling loop of `createPlot`: f at the POINTS + 1 grid points, keeping
   * only the points where it is defined.
   */
  method Sample(sqrt: real -> real, xMin: real, xMax: real, a: real)
    returns (xValues: seq<real>, yValues: seq<real>)
    ensures xValues == DefinedAt(sqrt, a, GridPoints(xMin, xMax))
    ensures yValues == ValuesAt(sqrt, a, GridPoints(xMin, xMax))
    ensures |xValues| == |yValues| <= POINTS + 1
    ensures forall i :: 0 <= i < |xValues| ==> F(sqrt, xValues[i], a) == Some(yValues[i])
    ensures forall i :: 0 <= i <= POINTS && F(sqrt, Grid(xMin, xMax, i), a).Some? ==>
              Grid(xMin, xMax, i) in xValues
    ensures xMin < xMax ==> StrictlyIncreasing(xValues)
  {
    ghost var grid := GridPoints(xMin, xMax);
    xValues, yValues := [], [];
    for i := 0 to POINTS + 1
      invariant xValues == DefinedAt(sqrt, a, grid[..i])
      invariant yValues == ValuesAt(sqrt, a, grid[..i])
    {
      var x := xMin + (i as real) * (xMax - xMin) / (POINTS as real);
      assert grid[..i + 1][..i] == grid[..i] && grid[..i + 1][i] == x;
      match F(sqrt, x, a)
      case Some(y) =>
        xValues := xValues + [x];
        yValues := yValues + [y];
      case None =>
    }
    assert grid[..POINTS + 1] == grid;
    DefinedAtFacts(sqrt, a, grid);
    forall i | 0 <= i <= POINTS && F(sqrt, Grid(xMin, xMax, i), a).Some?
      ensures Grid(xMin, xMax, i) in xValues
    {
      assert grid[i] == Grid(xMin, xMax, i);
    }
    if xMin < xMax {
      GridIncreasing(xMin, xMax);
      DefinedAtIncreasing(sqrt, a, grid);
    }
  }

  datatype MarkerKind = InitialGuess | RootMarker

  function KindRun(k: MarkerKind, n: nat): seq<MarkerKind> {
    seq(n, _ => k)
  }

  /**
   * The marker lists of `createPlot`: first the initial guesses, then the
   * roots, each only where f is defined there.
   */
  method Markers(sqrt: real -> real, a: real, initials: seq<real>, roots: seq<real>)
    returns (pointX: seq<real>, pointY: seq<real>, pointTypes: seq<MarkerKind>)
    ensures pointX == DefinedAt(sqrt, a, initials) + DefinedAt(sqrt, a, roots)
    ensures pointY == ValuesAt(sqrt, a, initials) + ValuesAt(sqrt, a, roots)
    ensures pointTypes == KindRun(InitialGuess, |DefinedAt(sqrt, a, initials)|)
                        + KindRun(RootMarker, |DefinedAt(sqrt, a, roots)|)
    ensures |pointX| == |pointY| == |pointTypes|
    ensures forall i :: 0 <= i < |pointX| ==> F(sqrt, pointX[i], a) == Some(pointY[i])
    ensures forall i, j :: 0 <= i < j < |pointTypes| && pointTypes[j] == InitialGuess ==>
              pointTypes[i] == InitialGuess
  {
    pointX, pointY, pointTypes := [], [], [];
    for i := 0 to |initials|
      invariant pointX == DefinedAt(sqrt, a, initials[..i])
      invariant pointY == ValuesAt(sqrt, a, initials[..i])
      invariant pointTypes == KindRun(InitialGuess, |pointX|)
    {
      assert initials[..i + 1][..i] == initials[..i];
      match F(sqrt, initials[i], a)
      case Some(y0) =>
        pointX := pointX + [initials[i]];
        pointY := pointY + [y0];
        pointTypes := pointTypes + [InitialGuess];
      case None =>
    }
    assert initials[..|initials|] == initials;
    ghost var guessCount := |pointX|;
    ghost var guessX, guessY := pointX, pointY;
    for i := 0 to |roots|
      invariant pointX == guessX + DefinedAt(sqrt, a, roots[..i])
      invariant pointY == guessY + ValuesAt(sqrt, a, roots[..i])
      invariant pointTypes == KindRun(InitialGuess, guessCount) + KindRun(RootMarker, |pointX| - guessCount)
    {
      assert roots[..i + 1][..i] == roots[..i];
      match F(sqrt, roots[i], a)
      case Some(yRoot) =>
        pointX := pointX + [roots[i]];
        pointY := pointY + [yRoot];
        pointTypes := pointTypes + [RootMarker];
      case None =>
    }
    assert roots[..|roots|] == roots;
    DefinedAtFacts(sqrt, a, initials);
    DefinedAtFacts(sqrt, a, roots);
  }

  /** `filter { abs(it) < 1000 }`. */
  function Filtered(ys: seq<real>): seq<real> {
    if ys == [] then []
    else
      var rest := Filtered(ys[..|ys| - 1]);
      if Abs(ys[|ys| - 1]) < OUTLIER_LIMIT then rest + [ys[|ys| - 1]] else rest
  }

  lemma {:induction false} FilteredFacts(ys: seq<real>)
    ensures forall y :: y in Filtered(ys) <==> y in ys && Abs(y) < OUTLIER_LIMIT
  {
    if ys != [] {
      var init := ys[..|ys| - 1];
      FilteredFacts(init);
      assert ys == init + [ys[|ys| - 1]];
    }
  }

  /** The zoomed range before padding: min/max of the non-outlier samples, widened to the special values. */
  function ZoomBase(ys: seq<real>, specials: seq<real>): Range
    requires ys != []
  {
    var filtered := Filtered(ys);
    var base := if filtered != [] then Range(MinOf(filtered), MaxOf(filtered))
                else Range(MinOf(ys), MaxOf(ys));
    if specials != [] then Range(Min(base.lo, MinOf(specials)), Max(base.hi, MaxOf(specials)))
    else base
  }

  /** Padding of 10% of the height, but at least MIN_PADDING, on each side. */
  function Padded(r: Range): (p: Range)
    ensures r.lo - p.lo == p.hi - r.hi
    ensures r.lo - p.lo >= MIN_PADDING && r.lo - p.lo >= (r.hi - r.lo) * 0.1
    ensures r.lo - p.lo == MIN_PADDING || r.lo - p.lo == (r.hi - r.lo) * 0.1
  {
    var padding := Max(MIN_PADDING, (r.hi - r.lo) * 0.1);
    Range(r.lo - padding, r.hi + padding)
  }

  /** The minimum-height rule: a range lower than MIN_HEIGHT is recentred at height MIN_HEIGHT. */
  function MinHeight(r: Range): Range {
    if Abs(r.hi - r.lo) < MIN_HEIGHT then
      var center := (r.lo + r.hi) / 2.0;
      Range(center - 0.05, center + 0.05)
    else r
  }

  /** `calculateYBounds` over the samples and the values of f at the roots and initial guesses. */
  function YBounds(ys: seq<real>, specials: seq<real>, zoomed: bool): Range {
    if ys == [] then Range(-1.0, 1.0)
    else MinHeight(if zoomed then Padded(ZoomBase(ys, specials)) else Range(MinOf(ys), MaxOf(ys)))
  }

  lemma MinHeightRule(r: Range)
    ensures Abs(r.hi - r.lo) < MIN_HEIGHT ==>
              MinHeight(r).hi - MinHeight(r).lo == MIN_HEIGHT &&
              MinHeight(r).lo + MinHeight(r).hi == r.lo + r.hi
    ensures Abs(r.hi - r.lo) >= MIN_HEIGHT ==> MinHeight(r) == r
    ensures r.lo <= r.hi ==>
              MinHeight(r).hi - MinHeight(r).lo >= MIN_HEIGHT &&
              MinHeight(r).lo <= r.lo && r.hi <= MinHeight(r).hi
  {
  }

  /** Whatever the input, the bounds are at least MIN_HEIGHT apart. */
  lemma YBoundsHeight(ys: seq<real>, specials: seq<real>, zoomed: bool)
    ensures YBounds(ys, specials, zoomed).hi - YBounds(ys, specials, zoomed).lo >= MIN_HEIGHT
  {
    if ys != [] {
      var r := if zoomed then Padded(ZoomBase(ys, specials)) else Range(MinOf(ys), MaxOf(ys));
      if zoomed {
        ZoomBaseOrdered(ys, specials);
      } else {
        assert MinOf(ys) <= MaxOf(ys) by { assert MaxOf(ys) in ys; }
      }
      MinHeightRule(r);
    }
  }

  lemma ZoomBaseOrdered(ys: seq<real>, specials: seq<real>)
    requires ys != []
    ensures ZoomBase(ys, specials).lo <= ZoomBase(ys, specials).hi
  {
    var filtered := Filtered(ys);
    if filtered != [] {
      assert MinOf(filtered) <= MaxOf(filtered) by { assert MaxOf(filtered) in filtered; }
    } else {
      assert MinOf(ys) <= MaxOf(ys) by { assert MaxOf(ys) in ys; }
    }
  }

  /**
   * In the zoomed view the padding is at least MIN_PADDING per side, so the
   * rule for the minimum height never applies, the height is at least twice
   * MIN_PADDING, and every non-outlier sample and every special value lies
   * strictly inside the bounds.
   */
  lemma {:induction false} ZoomedBounds(ys: seq<real>, specials: seq<real>)
    requires ys != []
    ensures YBounds(ys, specials, true) == Padded(ZoomBase(ys, specials))
    ensures YBounds(ys, specials, true).hi - YBounds(ys, specials, true).lo >= 2.0 * MIN_PADDING
    ensures forall y :: y in ys && Abs(y) < OUTLIER_LIMIT ==>
              YBounds(ys, specials, true).lo + MIN_PADDING <= y <= YBounds(ys, specials, true).hi - MIN_PADDING
    ensures forall y :: y in specials ==>
              YBounds(ys, specials, true).lo + MIN_PADDING <= y <= YBounds(ys, specials, true).hi - MIN_PADDING
  {
    var base := ZoomBase(ys, specials);
    ZoomBaseOrdered(ys, specials);
    var b := Padded(base);
    assert b.lo <= base.lo - MIN_PADDING && base.hi + MIN_PADDING <= b.hi;
    MinHeightRule(b);
    FilteredFacts(ys);
    var filtered := Filtered(ys);
    forall y | y in ys && Abs(y) < OUTLIER_LIMIT ensures base.lo <= y <= base.hi {
      assert y in filtered;
    }
  }

  /**
   * Outside the zoomed view the bounds are the plain minimum and maximum of
   * the samples unless the minimum-height rule applies; they always enclose
   * every sample.
   */
  lemma PlainBounds(ys: seq<real>, specials: seq<real>)
    requires ys != []
    ensures MaxOf(ys) - MinOf(ys) >= MIN_HEIGHT ==> YBounds(ys, specials, false) == Range(MinOf(ys), MaxOf(ys))
    ensures forall y :: y in ys ==> YBounds(ys, specials, false).lo <= y <= YBounds(ys, specials, false).hi
  {
    assert MinOf(ys) <= MaxOf(ys) by { assert MaxOf(ys) in ys; }
    MinHeightRule(Range(MinOf(ys), MaxOf(ys)));
  }

  /** The symmetric limit of the full view: the largest of |yMin|, |yMax| and 0.1. */
  function SymmetricLimit(b: Range): (r: real)
    ensures r >= MIN_HEIGHT && r >= Abs(b.lo) && r >= Abs(b.hi)
    ensures r == MIN_HEIGHT || r == Abs(b.lo) || r == Abs(b.hi)
  {
    Max(Max(Abs(b.lo), Abs(b.hi)), MIN_HEIGHT)
  }

  /** The imperative `calculateYBounds`: collects the special values and adjusts yMin and yMax in turn. */
  method CalculateYBounds(sqrt: real -> real, yValues: seq<real>, roots: seq<real>,
                          initials: seq<real>, a: real, zoomed: bool)
    returns (b: Range)
    ensures b == YBounds(yValues, ValuesAt(sqrt, a, roots) + ValuesAt(sqrt, a, initials), zoomed)
    ensures yValues == [] ==> b == Range(-1.0, 1.0)
    ensures b.hi - b.lo >= MIN_HEIGHT
  {
    ghost var specials := ValuesAt(sqrt, a, roots) + ValuesAt(sqrt, a, initials);
    YBoundsHeight(yValues, specials, zoomed);
    if yValues == [] {
      return Range(-1.0, 1.0);
    }
    var yMin := MinOf(yValues);
    var yMax := MaxOf(yValues);
    if zoomed {
      var filtered := Filtered(yValues);
      if filtered != [] {
        yMin := MinOf(filtered);
        yMax := MaxOf(filtered);
      }
      var specialPoints := [];
      for i := 0 to |roots|
        invariant specialPoints == ValuesAt(sqrt, a, roots[..i])
      {
        assert roots[..i + 1][..i] == roots[..i];
        match F(sqrt, roots[i], a)
        case Some(v) => specialPoints := specialPoints + [v];
        case None =>
      }
      assert roots[..|roots|] == roots;
      for i := 0 to |initials|
        invariant specialPoints == ValuesAt(sqrt, a, roots) + ValuesAt(sqrt, a, initials[..i])
      {
        assert initials[..i + 1][..i] == initials[..i];
        match F(sqrt, initials[i], a)
        case Some(v) => specialPoints := specialPoints + [v];
        case None =>
      }
      assert initials[..|initials|] == initials;
      if specialPoints != [] {
        yMin := Min(yMin, MinOf(specialPoints));
        yMax := Max(yMax, MaxOf(specialPoints));
      }
      var padding := Max(MIN_PADDING, (yMax - yMin) * 0.1);
      yMin := yMin - padding;
      yMax := yMax + padding;
    }
    if Abs(yMax - yMin) < MIN_HEIGHT {
      var center := (yMin + yMax) / 2.0;
      yMin := center - 0.05;
      yMax := center + 0.05;
    }
    b := Range(yMin, yMax);
  }

  /** The y-limits a plot is drawn with: the bounds when zoomed, else symmetric about zero. */
  function YLimits(bounds: Range, zoomed: bool): Range {
    if zoomed then bounds else Range(-SymmetricLimit(bounds), SymmetricLimit(bounds))
  }

  /** What the chart of `createPlot` is drawn from. */
  datatype Plot = Plot(
    xLimits: Range,
    yLimits: Range,
    xValues: seq<real>,
    yValues: seq<real>,
    intervals: seq<Range>,
    pointX: seq<real>,
    pointY: seq<real>,
    pointTypes: seq<MarkerKind>)

  /**
   * `p` is the chart `createPlot(xMin, xMax, a, intervals, initials, roots, zoomed)`
   * is drawn from: x-limits (xMin, xMax), f sampled on the 1001-point grid, the
   * y-limits from `calculateYBounds` (symmetric about zero outside the zoomed
   * view), the bracket lines, and a marker for every initial guess and then
   * every root where f is defined.
   */
  ghost predicate DrawnFrom(sqrt: real -> real, a: real, p: Plot, xMin: real, xMax: real,
                            intervals: seq<Range>, initials: seq<real>, roots: seq<real>, zoomed: bool) {
    p.xLimits == Range(xMin, xMax) &&
    p.xValues == DefinedAt(sqrt, a, GridPoints(xMin, xMax)) &&
    p.yValues == ValuesAt(sqrt, a, GridPoints(xMin, xMax)) &&
    p.yLimits == YLimits(YBounds(p.yValues, ValuesAt(sqrt, a, roots) + ValuesAt(sqrt, a, initials), zoomed), zoomed) &&
    p.intervals == intervals &&
    p.pointX == DefinedAt(sqrt, a, initials) + DefinedAt(sqrt, a, roots) &&
    p.pointY == ValuesAt(sqrt, a, initials) + ValuesAt(sqrt, a, roots) &&
    p.pointTypes == KindRun(InitialGuess, |DefinedAt(sqrt, a, initials)|)
                    + KindRun(RootMarker, |DefinedAt(sqrt, a, roots)|)
  }

  /** `createPlot` without the drawing: samples, bounds, limits, bracket lines and markers. */
  method CreatePlot(sqrt: real -> real, xMin: real, xMax: real, a: real, intervals: seq<Range>,
                    initials: seq<real>, roots: seq<real>, zoomed: bool)
    returns (p: Plot)
    ensures DrawnFrom(sqrt, a, p, xMin, xMax, intervals, initials, roots, zoomed)
  {
    var xValues, yValues := Sample(sqrt, xMin, xMax, a);
    var bounds := CalculateYBounds(sqrt, yValues, roots, initials, a, zoomed);
    var yLimits := if zoomed then bounds else
      var yRange := Max(Max(Abs(bounds.lo), Abs(bounds.hi)), MIN_HEIGHT);
      Range(-yRange, yRange);
    var pointX, pointY, pointTypes := Markers(sqrt, a, initials, roots);
    p := Plot(Range(xMin, xMax), yLimits, xValues, yValues, intervals, pointX, pointY, pointTypes);
  }
}
