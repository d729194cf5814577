# Solver for sqrt(x + a) = 1/x — a Dafny model

This project models the numeric core of a small Kotlin desktop application
that solves sqrt(x + a) = 1/x for a real parameter `a`:

- the evaluators `Equation.f` (the equation f(x, a) = sqrt(x + a) - 1/x) and
  `Equation.phi` (the iteration map) of the solver package, and the
  alternate, unused pair in the UI package, each as its own module;
- `findRootInterval`, which slides a unit window to the right from the
  domain's lower bound until f changes sign or the window reaches 100;
- `iterationMethod`, the fixed-point iteration x := phi(x) with tolerance
  0.001 and a cap of 5000 steps;
- `computeRoots`, which replaces decimal commas, parses, chains the two
  steps and returns the result (the callback becomes a returned `Outcome`);
- the numeric part of `createPlot` and `createZoomedPlot`: the 1001-point
  sampling of f, the y-bounds of `calculateYBounds`, the symmetric y-limits
  of the full view and the marker lists.

Arithmetic is on Dafny `real`. The square root (kotlin.math.sqrt) and the
number parser (String.toDouble) are foreign functions and are parameters
of the model: `sqrt: real -> real` and `parse: string -> Option<real>`.
Facts that need the algebra of the square root require
`RealMath.IsSqrt(sqrt)`: sqrt(r) >= 0 and sqrt(r) * sqrt(r) == r for
every r >= 0. "Undefined" (Kotlin `null`) is `Option.None`. Failure
messages are the tags of `Roots.SolveError`, carrying the number each
message prints.

Modules: `Wrappers` (Option), `RealMath` (abs, max, min, sign, min/max of
a list, the square-root law), `SolverEquation`, `UiEquation`, `Plotter`
(imports `SolverEquation`, as the Kotlin plotter does) and `Roots`
(imports `Plotter`).

Notes on what the code does:
- The iteration returns phi(x_n) when |phi(x_n) - x_n| < 0.001. It does not
  promise |phi(root) - root| < 0.001 at the returned root.
- The result record has no bracket field. The bracket appears only as the
  vertical lines of the plots (`Plot.intervals`).
- The bracket scan starts at the lower bound, where f is always defined,
  so "f undefined during the scan" never happens
  (`Roots.ScanFailsOnlyAtLimit`).
- The `?: 0.0` fallback for `fValue` is never taken:
  `Roots.ResultViews` states `F(root) == Some(fValue)`.

## Model

| member | source | states |
|---|---|---|
| `SolverEquation.F` | src/main/kotlin/fokin/aleksandr/application/solver/Equation.kt:7-16 | f is undefined exactly when x + a < 0 or x == 0, and otherwise equals sqrt(x + a) - 1/x; it never fails |
| `SolverEquation.Phi` | src/main/kotlin/fokin/aleksandr/application/solver/Equation.kt:18-28 | phi is undefined exactly when x <= 0 or x + a < 0, with the same guard in both sign-of-a branches; no input makes it fail |
| `SolverEquation.PhiNonNegativeBranch` | src/main/kotlin/fokin/aleksandr/application/solver/Equation.kt:20-22 | for a >= 0 and phi defined: x + a > 0, so sqrt(x + a) > 0 and there is no division by zero; phi = 1/sqrt(x + a) > 0 |
| `SolverEquation.PhiNegativeBranch` | src/main/kotlin/fokin/aleksandr/application/solver/Equation.kt:23-27 | for a < 0 and phi defined: phi = 1/x^2 - a, which is strictly greater than -a > 0 |
| `SolverEquation.PhiStaysInDomain` | src/main/kotlin/fokin/aleksandr/application/solver/Equation.kt:18-28 | every value phi returns is > 0 and has value + a > 0, so f (and phi) are defined there again |
| `SolverEquation.FixedPointIffRoot` | src/main/kotlin/fokin/aleksandr/application/solver/Equation.kt:19-27 | for x > 0 and x + a >= 0, both maps are defined, and phi(x) == x if and only if f(x) == 0, in both branches |
| `UiEquation.F` | src/main/kotlin/fokin/aleksandr/application/ui/Equation.kt:7-10 | the alternate f is undefined exactly when x <= 0 or x + a < 0, and otherwise equals sqrt(x + a) - 1/x |
| `UiEquation.Phi` | src/main/kotlin/fokin/aleksandr/application/ui/Equation.kt:12-15 | the alternate phi is undefined exactly when x + a <= 0; when defined it is strictly positive, whatever the sign of a |
| `UiEquation.FRefinesSolverF` | src/main/kotlin/fokin/aleksandr/application/ui/Equation.kt:7-10 | wherever the alternate f is defined, the solver's f is defined and equal to it; at x = -1, a = 2 only the solver's f is defined, so the domain is a strict subset |
| `UiEquation.PhiDefinedLeftOfZero` | src/main/kotlin/fokin/aleksandr/application/ui/Equation.kt:12-15 | for x <= 0 with x + a > 0 the alternate phi is defined and the solver's phi is not |
| `UiEquation.FixedPointIffRoot` | src/main/kotlin/fokin/aleksandr/application/ui/Equation.kt:11-15 | for x > 0 and x + a > 0, the alternate phi(x) == x if and only if f(x) == 0 |
| `UiEquation.VariantsDisagreeForNegativeA` | src/main/kotlin/fokin/aleksandr/application/ui/Equation.kt:12-15 | the two phi maps differ for negative a: at x = 2, a = -1 the alternate gives 1 and the solver's gives 5/4 |
| `RealMath.MinOf` | src/main/kotlin/fokin/aleksandr/application/ui/Plotter.kt:146 | `minOrNull` of a non-empty list is an element of it and no element is smaller |
| `RealMath.MaxOf` | src/main/kotlin/fokin/aleksandr/application/ui/Plotter.kt:147 | `maxOrNull` of a non-empty list is an element of it and no element is larger |
| `Plotter.DefinedAt` | src/main/kotlin/fokin/aleksandr/application/ui/Plotter.kt:48-53 | the grid points the sampling loop keeps: the candidates where f is defined, in their order (its properties are `Plotter.DefinedAtFacts`) |
| `Plotter.ValuesAt` | src/main/kotlin/fokin/aleksandr/application/ui/Plotter.kt:48-53 | the values of f the sampling loop keeps, one per kept point, in order (aligned with `DefinedAt` by `Plotter.DefinedAtFacts`) |
| `Plotter.GridIncreasing` | src/main/kotlin/fokin/aleksandr/application/ui/Plotter.kt:48-49 | when xMin < xMax the grid points xMin + i(xMax - xMin)/1000 strictly increase with i |
| `Plotter.GridWithin` | src/main/kotlin/fokin/aleksandr/application/ui/Plotter.kt:48-49 | when xMin <= xMax every grid point lies in [xMin, xMax] |
| `Plotter.DefinedAtFacts` | src/main/kotlin/fokin/aleksandr/application/ui/Plotter.kt:50-53 | the kept points and values have equal length, at most the number of candidates; each kept value is f at its point; a point is kept exactly when it is a candidate where f is defined |
| `Plotter.DefinedAtIncreasing` | src/main/kotlin/fokin/aleksandr/application/ui/Plotter.kt:48-53 | keeping only the defined points preserves strict increase |
| `Plotter.DefinedEverywhere` | src/main/kotlin/fokin/aleksandr/application/ui/Plotter.kt:50-53 | when f is defined at every candidate, nothing is dropped |
| `Plotter.Sample` | src/main/kotlin/fokin/aleksandr/application/ui/Plotter.kt:44-54 | the sampling loop returns the grid points where f is defined and the values of f there, in order: equal lengths, at most 1001, each y == f(x), every defined grid point kept, x strictly increasing when xMin < xMax |
| `Plotter.Markers` | src/main/kotlin/fokin/aleksandr/application/ui/Plotter.kt:92-112 | pointX, pointY and pointTypes have equal length; a marker is added exactly where f is defined, with pointY == f(pointX); all initial-guess markers come before all root markers |
| `Plotter.Filtered` | src/main/kotlin/fokin/aleksandr/application/ui/Plotter.kt:152 | the samples with magnitude below 1000, in order (characterised by `Plotter.FilteredFacts`) |
| `Plotter.FilteredFacts` | src/main/kotlin/fokin/aleksandr/application/ui/Plotter.kt:152 | the outlier filter keeps exactly the samples with magnitude below 1000 |
| `Plotter.ZoomBase` | src/main/kotlin/fokin/aleksandr/application/ui/Plotter.kt:146-174 | the zoomed bounds before padding: min and max of the non-outlier samples (of all samples when every one is an outlier), widened to the values at the special points |
| `Plotter.Padded` | src/main/kotlin/fokin/aleksandr/application/ui/Plotter.kt:177-179 | the same padding on both sides, the larger of 0.1 and a tenth of the height |
| `Plotter.MinHeight` | src/main/kotlin/fokin/aleksandr/application/ui/Plotter.kt:183-187 | a range lower than 0.1 is replaced by the range of height 0.1 around its midpoint (stated by `Plotter.MinHeightRule`) |
| `Plotter.YBounds` | src/main/kotlin/fokin/aleksandr/application/ui/Plotter.kt:136-190 | `calculateYBounds` as a function: (-1, 1) without samples, else the plain or zoomed base with the minimum-height rule (its properties are `YBoundsHeight`, `ZoomedBounds`, `PlainBounds`) |
| `Plotter.MinHeightRule` | src/main/kotlin/fokin/aleksandr/application/ui/Plotter.kt:183-187 | when the height is below 0.1, the rule keeps the midpoint and sets the height to exactly 0.1; otherwise it changes nothing; an ordered range becomes at least 0.1 high and still covers the original |
| `Plotter.YBoundsHeight` | src/main/kotlin/fokin/aleksandr/application/ui/Plotter.kt:136-190 | the returned bounds always satisfy yMax - yMin >= 0.1, whatever the samples, special points and view |
| `Plotter.ZoomedBounds` | src/main/kotlin/fokin/aleksandr/application/ui/Plotter.kt:150-187 | in the zoomed view with samples, padding is at least 0.1 per side, so the minimum-height rule never applies and the height is >= 0.2; every sample with magnitude below 1000 and every value of f at a root or initial guess lies at least 0.1 inside the bounds |
| `Plotter.PlainBounds` | src/main/kotlin/fokin/aleksandr/application/ui/Plotter.kt:143-147 | outside the zoomed view the bounds are the plain min and max of the samples unless those are less than 0.1 apart; they always enclose every sample |
| `Plotter.SymmetricLimit` | src/main/kotlin/fokin/aleksandr/application/ui/Plotter.kt:77-80 | the full view's y-limit is the largest of abs(yMin), abs(yMax) and 0.1 |
| `Plotter.YLimits` | src/main/kotlin/fokin/aleksandr/application/ui/Plotter.kt:71-82 | the y-limits a plot is drawn with: the bounds in the zoomed view, otherwise -r to r with r the symmetric limit |
| `Plotter.CalculateYBounds` | src/main/kotlin/fokin/aleksandr/application/ui/Plotter.kt:136-190 | the loop version collects f at the roots, then at the initial guesses, and returns exactly the bounds `YBounds` defines: (-1, 1) for no samples, and height at least 0.1 |
| `Plotter.DrawnFrom` | src/main/kotlin/fokin/aleksandr/application/ui/Plotter.kt:33-134 | what a plot consists of: the x-limits, f sampled on the 1001-point grid, the y-limits of `YLimits`, the bracket lines, and the markers of the initial guesses then the roots where f is defined, with their values and kinds |
| `Plotter.CreatePlot` | src/main/kotlin/fokin/aleksandr/application/ui/Plotter.kt:33-134 | the plot built by the sampling loop, `calculateYBounds` and the marker loops is `DrawnFrom` its arguments: x-limits (xMin, xMax), the samples, the y-limits (the bounds when zoomed, else symmetric around 0), the bracket lines, and markers with their y-values and kinds |
| `Roots.ReplaceCommas` | src/main/kotlin/fokin/aleksandr/application/solver/Roots.kt:25 | the text given to the parser is the input with every ',' replaced by '.'; it has the same length and nothing else changes |
| `Roots.ReplaceCommasIdempotent` | src/main/kotlin/fokin/aleksandr/application/solver/Roots.kt:25 | no comma is left after the replacement, and a second replacement changes nothing |
| `Roots.DecimalCommaAccepted` | src/main/kotlin/fokin/aleksandr/application/solver/Roots.kt:25 | texts that differ only in writing the decimal separator as ',' or '.' reach the parser as the same text |
| `Roots.DecimalCommaExample` | src/main/kotlin/fokin/aleksandr/application/solver/Roots.kt:25 | "0,5" and "0.5" both reach the parser as "0.5" |
| `Roots.LowBound` | src/main/kotlin/fokin/aleksandr/application/solver/Roots.kt:26 | the lower bound is the smallest of max(0, -a) + 1e-5: at least 1e-5 and with bound + a at least 1e-5, one of them exactly |
| `Roots.LowBoundInDomain` | src/main/kotlin/fokin/aleksandr/application/solver/Roots.kt:26 | every x >= max(0, -a) + 1e-5 has x > 0 and x + a > 0, so f is defined there |
| `Roots.ScanStart` | src/main/kotlin/fokin/aleksandr/application/solver/Roots.kt:62 | the scan's first left end: |a| + 1e-5 for negative a, else the given low bound (equal to `LowBound` by `Roots.ScanStartIsLowBound`) |
| `Roots.ScanStartIsLowBound` | src/main/kotlin/fokin/aleksandr/application/solver/Roots.kt:62 | both arms of the scan's start equal the lower bound computed at line 26 |
| `Roots.FindRootInterval` | src/main/kotlin/fokin/aleksandr/application/solver/Roots.kt:60-80 | the scan moves past every window before the one where it stops, and stops at the first window where f is undefined, changes sign or reaches 100; it returns a bracket exactly when f is defined with different signs at both ends of that window; the guess is the midpoint, strictly inside; the loop terminates with measure floor(100 - x2) |
| `Roots.ScanStopUnique` | src/main/kotlin/fokin/aleksandr/application/solver/Roots.kt:68-73 | the window where the scan stops is uniquely determined by the start and a |
| `Roots.ScanFailsOnlyAtLimit` | src/main/kotlin/fokin/aleksandr/application/solver/Roots.kt:62-75 | from the lower bound the scan fails only after its window has reached 100 with f of one sign at both ends of every window |
| `Roots.Orbit` | src/main/kotlin/fokin/aleksandr/application/solver/Roots.kt:83-91 | the n-th value of x in the iteration loop: x0, then phi of the previous value while phi stays defined |
| `Roots.OrbitStaysUndefined` | src/main/kotlin/fokin/aleksandr/application/solver/Roots.kt:86-87 | once an iterate of phi is undefined, every later one is |
| `Roots.FirstSettleUnique` | src/main/kotlin/fokin/aleksandr/application/solver/Roots.kt:86-88 | at most one step is the first to move by less than 0.001, so the iteration's result is determined by x0 and a |
| `Roots.SettledInDomain` | src/main/kotlin/fokin/aleksandr/application/solver/Roots.kt:87-88 | the value returned by a settling step is > 0 and above -a, so f is defined at the root |
| `Roots.IterationMethod` | src/main/kotlin/fokin/aleksandr/application/solver/Roots.kt:82-94 | on success it returns (x_{n+1}, n) with n < 5000, x_{n+1} = phi(x_n) and abs(x_{n+1} - x_n) < 0.001, n the first such step; it fails exactly when no step before the cap settles (phi undefined at an iterate, or 5000 steps that do not settle); phi is evaluated at most 5000 times |
| `Roots.ZoomedRange` | src/main/kotlin/fokin/aleksandr/application/solver/Roots.kt:104-106 | the zoomed x-range ends at root + 0.5 and starts at the larger of the lower bound and root - 0.5 |
| `Roots.FullHalfWidth` | src/main/kotlin/fokin/aleksandr/application/solver/Roots.kt:39-40 | the full view's half-width is the largest of 1.5 abs(root), 1.5 abs(guess) and 10, so it is at least 10 |
| `Roots.ZoomedViewFullySampled` | src/main/kotlin/fokin/aleksandr/application/solver/Roots.kt:104-106 | for a root in the domain, the zoomed view [max(lowBound, root - 0.5), root + 0.5] is non-empty and starts at or above the lower bound, so f is defined at all 1001 grid points |
| `Roots.CreateZoomedPlot` | src/main/kotlin/fokin/aleksandr/application/solver/Roots.kt:96-116 | the zoomed plot is `DrawnFrom` the x-range [max(lowBound, root - 0.5), root + 0.5] with zoomed y-bounds, the one bracket, and the markers at the initial guess and the root, with their values and kinds |
| `Roots.ZoomedPlotFacts` | src/main/kotlin/fokin/aleksandr/application/solver/Roots.kt:96-116 | for a root in the domain the zoomed plot keeps all 1001 grid points, its y-limits are at least 0.2 apart and f at the root lies strictly inside them |
| `Roots.BuildResult` | src/main/kotlin/fokin/aleksandr/application/solver/Roots.kt:36-52 | for a root in the domain: fValue == f(root); the full plot is `DrawnFrom` [-w, w] with w = FullHalfWidth, symmetric y-limits, the bracket and both markers; the zoomed plot is `DrawnFrom` the zoomed range with all 1001 samples, y-limits at least 0.2 apart and fValue strictly inside |
| `Roots.FullViewSymmetric` | src/main/kotlin/fokin/aleksandr/application/solver/Roots.kt:41-50 | the full plot of a result has y-limits -r to r with r >= 0.1 |
| `Roots.BracketIsStoppingWindow` | src/main/kotlin/fokin/aleksandr/application/solver/Roots.kt:75-79 | the bracket the scan returns is the unit window at which the scan stopped, and its guess is that window's midpoint |
| `Roots.NoRootExplained` | src/main/kotlin/fokin/aleksandr/application/solver/Roots.kt:29-30 | if the scan from the lower bound fails, the no-root message carries that lower bound and every window up to the limit kept one sign |
| `Roots.NotConvergedExplained` | src/main/kotlin/fokin/aleksandr/application/solver/Roots.kt:29-34 | if the scan found a bracket and no step before the cap settles, the non-convergence message carries the bracket's midpoint |
| `Roots.SolvedExplained` | src/main/kotlin/fokin/aleksandr/application/solver/Roots.kt:29-53 | a result whose guess is the midpoint of the scan's bracket, whose root and count come from the first settling step and whose views are as BuildResult states explains a solved outcome |
| `Roots.SolveFor` | src/main/kotlin/fokin/aleksandr/application/solver/Roots.kt:26-53 | after parsing: NoRoot carries the lower bound and the scan was exhausted; NotConverged carries the bracket's midpoint and no step before the cap settles; a result has its guess at the midpoint of the bracket, n and the root from the first settling step, and the views of BuildResult |
| `Roots.ComputeRoots` | src/main/kotlin/fokin/aleksandr/application/solver/Roots.kt:20-57 | exactly one outcome: the parse error exactly when the comma-replaced input does not parse; otherwise a no-bracket failure, a non-convergence failure or a result, as SolveFor states |

## Left out

- Floating point: rounding, NaN, infinities, the sign of -0.0 and `Double.sign` on NaN. Arithmetic is exact `real`; nothing is claimed about IEEE behaviour.
- kotlin.math.sqrt is a parameter. Only its law (a non-negative square root on [0, oo)) is assumed, and only by the members that need it.
- String.toDouble is the parameter `parse`, and its grammar is not modelled. Because of the comma replacement, "0,5" and "0.5" reach `parse` as the same text "0.5" (`Roots.DecimalCommaAccepted`, `Roots.DecimalCommaExample`).
- The message texts and their `%.2f`/`%.4f` formatting: each message is a tag carrying the number it prints.
- The `try/catch` around sqrt in solver/Equation.kt:11-15: the model evaluates sqrt without failing, so this catch never fires. The outer `catch` of Roots.kt:54: the only exception modelled is a failed parse, which becomes `ParseError`.
- The rendering library calls (`ggplot`, `geom*`, `scale*`, `ggtitle`, the `PlotPanel` composable), plot titles and colours. A plot is its sampled lists, limits, bracket lines and markers (`Plotter.Plot`).
- The nullable `intervals` and `initials` parameters of `createPlot` are plain sequences. Every caller passes a non-null list, and `?.forEach` on null does nothing, as on the empty list.
- The window, widgets and reactive state (App.kt, Main.kt), and the asynchronous delivery through the callback: `ComputeRoots` returns its outcome.
- Convergence of the fixed-point iteration: phi need not be a contraction, and the cap is the only guarantee the code gives.
- Roots.IterationMethod: the bound of 5000 evaluations of phi is stated on a ghost counter.
- Roots.ComputeRoots: no lemma states that two calls with the same input give the same outcome. The model keeps no state between calls.
