# ODE methods comparison: step rules and the series driver

The repository compares numerical methods on one scalar initial-value problem:
y' = f(x, y) = 50 y (x - 0.6)(x - 0.85), with y(0) = 0.1, on [0, 1]. Each
method is an object with a `label` and a `step(h, prevCoords)`. The objects are
the exact solution, Euler, the rule labelled "Backward Euler", Cauchy,
fourth-order Runge-Kutta, the two Taylor rules and fourth-order
Adams-Bashforth. Adams4 also has an `init(h, p1)` that bootstraps a four-point
history `previousPoints` by Runge-Kutta steps. Its `step` then shifts that
history in place.

The driver `getSeriesBy(method, h)` builds the series that gets plotted:

- It starts from the initial point, or from the history `init` returns.
- A do-while loop calls `step` until x reaches 1.
- If the last point lies beyond x = 1, it is moved back to x = 1 along the last
  segment.

The model works over exact reals:

- `problem.dfy` (module `Problem`): the right-hand side, its hand-written
  partial derivatives, the closed-form solution, and algebraic identities
  between them.
- `step_methods.dfy` (module `StepMethods`): the step rules as pure functions,
  and the method objects as a datatype. A method object is either `Stateless`
  with a `step`, or `WithHistory` with an `init` and a step from the history.
  The Adams4 object with its `previousPoints` field is the class
  `Adams4Method`.
- `trajectory.dfy` (module `Trajectory`) covers getSeriesBy in two forms:
  - `Series` is the function that specifies it.
  - `Start`, `StepUntilOne`, `LoopTurn` and `GetSeriesBy` are imperative
    methods, with the do-while loop and the in-place cut.
- `series_properties.dfy` (module `SeriesProperties`): what the series is.
  - Its shape, length and grid.
  - That its x values increase.
  - How the last point is cut.
  - How the exact and Adams4 series relate to their rules.

## Model

| member | source | states |
|---|---|---|
| Problem.F | methods.js:1 | the right-hand side f(x, y) = 50 y (x - 0.6)(x - 0.85) as written; its identities are the lemmas below |
| Problem.Dfdx | methods.js:8 | the hand-written df/dx; DerivativesConsistent and SecondDerivativesConsistent state how it relates to f |
| Problem.Dfdy | methods.js:9 | the hand-written df/dy, which does not depend on y; FExpansionInY states that it is the exact y-derivative of f |
| Problem.Dfd2x | methods.js:10 | the hand-written d2f/dx2 = 100 y; FExpansionInX states that it is the exact second x-derivative of f |
| Problem.Dfdxdy | methods.js:11 | the hand-written d2f/dxdy; SecondDerivativesConsistent states that the mixed partials agree with it |
| Problem.Exponent | methods.js:5 | the exponent x (50/3 x^2 - 36.25 x + 25.5) of the closed-form solution; ExponentDerivative states its derivative |
| Problem.ExactSolution | methods.js:4-5 | the closed form 0.1 exp(Exponent(x)), for a given exponential; ExactSolutionMeetsInitial states that it meets y(0) = 0.1 |
| Problem.Reference | methods.js:1-11 | the problem the comparison solves: f, the four partial derivatives and the closed-form solution |
| Problem.DerivativesConsistent | methods.js:1-11 | f = df/dy · y, df/dx = d2f/dxdy · y and d2f/dx2 = 100 y |
| Problem.FExpansionInX | methods.js:1-10 | the second-order expansion of f in x, using df/dx and d2f/dx2, is exact (f is quadratic in x) |
| Problem.FExpansionInY | methods.js:1-9 | the first-order expansion of f in y, using df/dy, is exact (f is linear in y) |
| Problem.SecondDerivativesConsistent | methods.js:8-11 | the increments of df/dx and df/dy in x and y agree with d2f/dx2 and d2f/dxdy; the mixed partials agree |
| Problem.ExponentDerivative | methods.js:4-9 | the exponent of the exact solution has derivative df/dy (exact remainder given) and is 0 at x = 0 |
| Problem.ExactSolutionMeetsInitial | methods.js:4-5 | when exp(0) = 1, the exact solution meets y(0) = 0.1 |
| StepMethods.Label | methods.js:13-126 | the `label` string of each method object, as written |
| StepMethods.FAt | methods.js:2 | `f_`: f evaluated at a point |
| StepMethods.TotalDerivative | methods.js:119 | `dFdx` = df/dx + df/dy f, the solution's second derivative; TaylorRulesExtend and TaylorCoefficientsAreSolutionDerivatives are about it |
| StepMethods.ExactStep | methods.js:13-20 | x advances by h, and y is the exact solution at the new x |
| StepMethods.EulerStep | methods.js:22-32 | x advances by h |
| StepMethods.BackwardEulerStep | methods.js:34-45 | x advances by h |
| StepMethods.CauchyStep | methods.js:47-58 | x advances by h |
| StepMethods.RungeKutta4Step | methods.js:60-74 | x advances by h |
| StepMethods.Taylor2Step | methods.js:100-111 | x advances by h |
| StepMethods.Taylor3Step | methods.js:113-126 | x advances by h |
| StepMethods.StepOf | methods.js:13-126 | every rule without a history advances x by h; the exact rule lands on the exact solution |
| StepMethods.Bootstrap | methods.js:78-83 | the Adams4 history: four points, the first p1, each next one a Runge-Kutta step from the one before, h apart in x |
| StepMethods.AdamsNext | methods.js:85-93 | the Adams-Bashforth point advances x by h from the newest history point |
| StepMethods.AdamsStep | methods.js:85-97 | the step succeeds exactly when there is a four-point history, and then advances x by h from its newest point |
| StepMethods.Adams4Object | methods.js:76-98 | the Adams4 object has an init and a history step, its label, and runs the Runge-Kutta bootstrap and the Adams-Bashforth step |
| StepMethods.RuleObject | methods.js:13-74 | a stateless object carries its rule's label and steps with its rule |
| StepMethods.ObjectOf | methods.js:13-126 | only Adams4 has an init; each object carries its label; every object steps x forward by h |
| StepMethods.Adams4Method.constructor | methods.js:76-77 | before init the object holds no history |
| StepMethods.Adams4Method.Init | methods.js:78-84 | the history becomes the bootstrap from p1, and the returned sequence equals it |
| StepMethods.Adams4Method.Step | methods.js:85-97 | the result depends only on h and the history, never on prevCoords; with four points the history drops its oldest and appends the result, staying four long; without a history the step fails |
| StepMethods.BackwardEulerIsExplicitTrapezoid | methods.js:34-45 | "Backward Euler" is explicit: it averages the slope at the start and at the Euler-predicted point |
| StepMethods.CauchyIsMidpoint | methods.js:47-58 | Cauchy's rule takes the slope at the end of a half Euler step |
| StepMethods.QuadratureRules | methods.js:22-74 | when f ignores y, Euler, "Backward Euler", Cauchy and Runge-Kutta are the rectangle, trapezoid, midpoint and Simpson rules |
| StepMethods.TaylorRulesExtend | methods.js:100-126 | Taylor2 is Euler plus h²/2 times the total derivative; Taylor3 is Taylor2 plus h³/6 times the third-derivative term |
| StepMethods.TaylorCoefficientsAreSolutionDerivatives | methods.js:107-122 | for the reference problem, the Taylor coefficients are the second and third derivatives of y = C exp(E(x)) |
| StepMethods.AdamsWeightsAreConsistent | methods.js:90-93 | the Adams-Bashforth weights sum to one: with four equal slopes the step is an Euler step from the newest point |
| Trajectory.GridX | interface.js:14-17 | the x the loop reaches after k steps of h from x = 0, by repeated addition as the loop computes it; GridXIsMultiple states that it is k·h |
| Trajectory.GridXIsMultiple | interface.js:14-17 | after k steps of h from x = 0, x is k·h |
| Trajectory.BelowStepBound | interface.js:14-17 | for h > 0 only finitely many grid points lie below x = 1 (the loop terminates) |
| Trajectory.LastIndex | interface.js:14-17 | the index where the loop stops: the first grid index from its start whose x reaches 1 |
| Trajectory.Seed | interface.js:6-12 | the series starts at the initial point `Initial` = (0, 0.1) (interface.js:6): for an object with an init, the history init returns; otherwise the initial point alone |
| Trajectory.SeedOnGrid | interface.js:6-12 | the seed lies on the grid of step h |
| Trajectory.Next | interface.js:15 | every step advances x by h from the last point |
| Trajectory.Run | interface.js:14-17 | each loop turn appends one point |
| Trajectory.RunSteps | interface.js:14-17 | the loop keeps the seed as a prefix, and each appended point is the object's step after the points before it |
| Trajectory.RunOnGrid | interface.js:14-17 | the loop's points stay on the grid |
| Trajectory.StepCount | interface.js:14-17 | the do-while loop takes at least one step |
| Trajectory.Unclamped | interface.js:5-17 | before the cut the series has at least two points, one per grid index up to where the loop stops |
| Trajectory.CountTurn | interface.js:14-17 | the loop goes on while the new x is below 1, and has taken all its steps once it is not |
| Trajectory.RunTurn | interface.js:15-16 | one loop turn appends the next point, and it lies on the next grid point |
| Trajectory.CutPoint | interface.js:22-25 | the replacement point has x = 1 exactly |
| Trajectory.CutPointOnSegment | interface.js:22-25 | when the last two points are h apart, the replacement lies on the line through them; it is the last point itself when that is already at x = 1 |
| Trajectory.CutLastSegment | interface.js:20-26 | the cut keeps the length and every point but the last; the last x becomes 1 when it was at least 1; nothing changes when it was at most 1 |
| Trajectory.History | methods.js:82-95 | the four most recent points of a series, oldest first: what the Adams4 history holds after init and after every step |
| Trajectory.Series | interface.js:4-29 | the series getSeriesBy returns: the seed, then the do-while steps until x >= 1, then the cut of the last segment; GetSeriesBy is proved to return it and the SeriesProperties lemmas state its properties |
| Trajectory.FinalHistory | methods.js:94-95 | the Adams4 history once getSeriesBy is done: the last four points before the cut |
| Trajectory.DispatchStep | interface.js:15 | `method.step(h, coords)` returns the object's next point; Adams4 steps from its history, which then holds the last four points |
| Trajectory.LoopTurn | interface.js:14-17 | one turn appends the new coords; for Adams4 the coords passed in are the history's newest point; the loop goes on from the new state while x < 1, and otherwise the series before the cut is complete |
| Trajectory.Start | interface.js:5-12 | the series and coords after the init branch: the seed and its last point; Adams4's history is set to the seed |
| Trajectory.StepUntilOne | interface.js:4-17 | the loop ends with the uncut series; Adams4 is left holding the last four points; stateless objects leave it unchanged |
| Trajectory.GetSeriesBy | interface.js:4-29 | getSeriesBy returns the cut series, which `Series` specifies, and leaves Adams4 holding the final four points |
| SeriesProperties.GridXIncreasing | interface.js:14-17 | for h > 0, grid x values strictly increase with the index |
| SeriesProperties.LastIndexIsFirst | interface.js:14-17 | the loop stops at a point with x >= 1 whose predecessor lies below 1, unless the loop stops on its first step from a seed longer than one point |
| SeriesProperties.FirstCoverIsLeast | interface.js:14-17 | a step count whose predecessor stays below 1 is the least count that reaches x = 1 |
| SeriesProperties.LastIndexBounds | interface.js:14-17 | the last index k has k·h >= 1, and (k-1)·h < 1 when the loop takes more than one step or starts from one point |
| SeriesProperties.LastIndexBeyond | interface.js:14-17 | while the grid stays below 1, the loop does not stop |
| SeriesProperties.UnclampedFacts | interface.js:5-17 | the uncut series starts with the seed, lies on the grid, and each appended point is the next step |
| SeriesProperties.AppendedBelowOne | interface.js:14-17 | every appended point but the last has x < 1; the last has x >= 1 |
| SeriesProperties.SeriesShape | interface.js:4-29 | the series begins with exactly the seed (so with (0, 0.1)), is longer than the seed, and ends at x = 1 exactly |
| SeriesProperties.SeriesOnGrid | interface.js:4-29 | every point but the last has x = x_i on the grid |
| SeriesProperties.SeriesOnMultiples | interface.js:4-29 | every point but the last has x = i·h |
| SeriesProperties.CutKeepsSteps | interface.js:20-26 | the cut keeps every step but the last |
| SeriesProperties.SeriesSteps | interface.js:14-26 | after the seed, every point but the last is the object's step from the points before it |
| SeriesProperties.CutFacts | interface.js:20-26 | the cut keeps the earlier points and replaces the last one only when it is beyond 1; the new last point lies on the line of the last segment |
| SeriesProperties.SeriesLastPoint | interface.js:14-26 | the last point before the cut is the last step, h after its predecessor, with x >= 1; the series ends with it, or with its cut, on that segment's line |
| SeriesProperties.SeriesLength | interface.js:14-26 | the last index K has K·h >= 1 and, for a stateless object, it is the least such count; Adams4 takes at least its four history points |
| SeriesProperties.BelowOne | interface.js:14-26 | every point but the last lies below x = 1, for stateless objects, and for Adams4 when 3h < 1 |
| SeriesProperties.SeriesIncreasing | interface.js:4-29 | x strictly increases along the whole series, the cut last point included, under the same condition |
| SeriesProperties.AdamsOvershoot | interface.js:7-26 | when 3h > 1 the Adams4 series has five points and the cut puts the last behind the one before it |
| SeriesProperties.RuleSeriesSteps | interface.js:14-17 | in a stateless rule's series, each point between the first and the last is the rule's step from the point before it |
| SeriesProperties.ExactSeriesOnCurve | methods.js:13-20 | the exact-solution series starts at the initial point, and every point between the first and the last lies on the exact solution |
| SeriesProperties.AdamsStartsLikeRungeKutta4 | methods.js:78-83 | when 3h < 1, the Adams4 series and the Runge-Kutta series have the same first four points |

## Left out

- Floating point: every quantity is an exact real. Rounding is not modelled, nor are convergence order and error size, nor a grid x that drifts off k·h by rounding. Over the reals the loop's last x is always exactly 1 or beyond it.
- The default step h = 0.1 (interface.js:64) shows the difference. In IEEE double arithmetic ten additions of 0.1 give x = 0.9999999999999999, below 1, so the program takes an eleventh step to about 1.1 and cuts it back to x = 1: 12 points. Over the reals the tenth step lands on x = 1 exactly and nothing is cut: 11 points. The least step count in `SeriesLength` is therefore a fact about the reals only.
- `Math.exp` is not modelled. The exact solution takes the exponential as a parameter (`Problem.ExactSolution`). A problem's exact-solution field is a function of x.
- Method lookup by `eval(methodName)`, the click handlers, plotting, series styling and options, and `console.log` are user-interface code. They are not part of this model. Method identity is the `Method` datatype of tags, and `ObjectOf` resolves it.
- Parsing the step size from the input field is left out. The methods require only h > 0, because the JavaScript loop does not end otherwise. The range the interface accepts, 0.0001 to 0.25, enters only where a lemma needs it: `BelowOne`, `SeriesIncreasing` and `AdamsStartsLikeRungeKutta4` need 3h < 1, which that range meets.
- Duck typing: `method.init instanceof Function` becomes the `WithHistory` constructor, and only Adams4 builds one.
- The single shared Adams4 object becomes a class instance that the driver methods receive and modify.
- `Init` returns the history as a sequence value, so later steps cannot change what it returned (`slice()` in the source). Array aliasing is not modelled.
- `Adams4Method.Step` before `Init`: JavaScript would throw when it reads `undefined[3]`. The model returns `Failure(DegenerateHistory)` instead.
- `LoopTurn`: the agreement between the driver's `coords` and the history's newest point is stated for each loop turn.
- `Start`, `StepUntilOne`, `LoopTurn` and `GetSeriesBy` split the one JavaScript function into its init branch, its loop, one turn of the loop, and its cut.
- Labels are modelled as strings. Their only use in the source is in the legend, which is not modelled.
- `SeriesIncreasing`: it does not hold for Adams4 when 3h > 1. There the bootstrap already passes x = 1 and the cut moves the last point behind the one before it (`AdamsOvershoot`). The interface's step range excludes that case.
