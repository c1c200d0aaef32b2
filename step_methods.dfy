/** The step-method family: each rule maps a step size h and a point to the
    next point of the problem ivp. All rules except Adams4 are pure functions
    of (h, point); Adams4 keeps the four most recent points in an object. */
module StepMethods {
  import opened Problem

  /** The failures the step methods can signal. */
  datatype Error = DegenerateHistory

  datatype Result<T> = Success(value: T) | Failure(error: Error)

  /** The method objects of the family, by name. */
  datatype Method =
    | ExactSolution
    | Euler
    | BackwardEuler
    | Cauchy
    | RungeKutta4
    | Adams4
    | Taylor2
    | Taylor3

  /** The human-readable label each method object carries. */
  function Label(m: Method): string
  {
    match m
    case ExactSolution => "Exact solution"
    case Euler => "Euler method"
    case BackwardEuler => "Backward Euler method"
    case Cauchy => "Cauchy method"
    case RungeKutta4 => "Fourth-order Runge–Kutta method"
    case Adams4 => "Fourth-order Adams method"
    case Taylor2 => "Second-order Taylor method"
    case Taylor3 => "Third-order Taylor method"
  }

  /** f evaluated at a point. */
  function FAt(ivp: ProblemDefinition, p: Point): real
  {
    ivp.f(p.x, p.y)
  }

  /** The exact-solution "step": the closed-form solution at x + h. */
  function ExactStep(ivp: ProblemDefinition, h: real, prev: Point): (next: Point)
    ensures next.x == prev.x + h
    ensures next.y == ivp.exactSolution(prev.x + h)
  {
    var xNext := prev.x + h;
    Point(xNext, ivp.exactSolution(xNext))
  }

  /** Explicit Euler. */
  function EulerStep(ivp: ProblemDefinition, h: real, prev: Point): (next: Point)
    ensures next.x == prev.x + h
  {
    var xPrev, yPrev := prev.x, prev.y;
    var yNext := yPrev + h * ivp.f(xPrev, yPrev);
    Point(xPrev + h, yNext)
  }

  /** The rule labelled "Backward Euler": an explicit predictor-corrector. */
  function BackwardEulerStep(ivp: ProblemDefinition, h: real, prev: Point): (next: Point)
    ensures next.x == prev.x + h
  {
    var f := ivp.f;
    var xPrev, yPrev := prev.x, prev.y;
    var xNext := xPrev + h;
    var yPredictor := yPrev + h * f(xPrev, yPrev);
    Point(xNext, yPrev + (h / 2.0) * (f(xPrev, yPrev) + f(xNext, yPredictor)))
  }

  /** Cauchy's rule: a half Euler step, then a full step with the slope there. */
  function CauchyStep(ivp: ProblemDefinition, h: real, prev: Point): (next: Point)
    ensures next.x == prev.x + h
  {
    var f := ivp.f;
    var xPrev, yPrev := prev.x, prev.y;
    var yPredictor := yPrev + (h / 2.0) * f(xPrev, yPrev);
    Point(xPrev + h, yPrev + h * f(xPrev + h / 2.0, yPredictor))
  }

  /** The classical four-stage Runge-Kutta rule. */
  function RungeKutta4Step(ivp: ProblemDefinition, h: real, prev: Point): (next: Point)
    ensures next.x == prev.x + h
  {
    var f := ivp.f;
    var xPrev, yPrev := prev.x, prev.y;
    var k1 := f(xPrev, yPrev);
    var k2 := f(xPrev + (h / 2.0), yPrev + (h / 2.0) * k1);
    var k3 := f(xPrev + (h / 2.0), yPrev + (h / 2.0) * k2);
    var k4 := f(xPrev + h, yPrev + h * k3);
    Point(xPrev + h, yPrev + (h / 6.0) * (k1 + 2.0 * k2 + 2.0 * k3 + k4))
  }

  /** The total derivative of f along a solution, df/dx + df/dy f: the
      solution's second derivative (dFdx in the third-order rule). */
  function TotalDerivative(ivp: ProblemDefinition, x: real, y: real): real
  {
    ivp.dfdx(x, y) + ivp.dfdy(x, y) * ivp.f(x, y)
  }

  /** The second-order Taylor rule. */
  function Taylor2Step(ivp: ProblemDefinition, h: real, prev: Point): (next: Point)
    ensures next.x == prev.x + h
  {
    var x, y := prev.x, prev.y;
    var xNext := x + h;
    var yNext := y + h * ivp.f(x, y) +
                 h * h / 2.0 * (ivp.dfdx(x, y) + ivp.dfdy(x, y) * ivp.f(x, y));
    Point(xNext, yNext)
  }

  /** The third-order Taylor rule. */
  function Taylor3Step(ivp: ProblemDefinition, h: real, prev: Point): (next: Point)
    ensures next.x == prev.x + h
  {
    var x, y := prev.x, prev.y;
    var dFdx := TotalDerivative(ivp, x, y);
    var yNext := y + h * ivp.f(x, y) +
                 h * h / 2.0 * dFdx +
                 h * h * h / 6.0 * (ivp.dfd2x(x, y) + 2.0 * ivp.dfdxdy(x, y) * ivp.f(x, y)
                                    + ivp.dfdy(x, y) * dFdx);
    Point(x + h, yNext)
  }

  /** The step of every method that keeps no history. */
  function StepOf(m: Method, ivp: ProblemDefinition, h: real, prev: Point): (next: Point)
    requires m != Adams4
    ensures next.x == prev.x + h
    ensures m == ExactSolution ==> next.y == ivp.exactSolution(next.x)
  {
    match m
    case ExactSolution => ExactStep(ivp, h, prev)
    case Euler => EulerStep(ivp, h, prev)
    case BackwardEuler => BackwardEulerStep(ivp, h, prev)
    case Cauchy => CauchyStep(ivp, h, prev)
    case RungeKutta4 => RungeKutta4Step(ivp, h, prev)
    case Taylor2 => Taylor2Step(ivp, h, prev)
    case Taylor3 => Taylor3Step(ivp, h, prev)
  }

  /** The four-point history Adams4 bootstraps: the first point and three
      Runge-Kutta steps from it. */
  function Bootstrap(ivp: ProblemDefinition, h: real, p1: Point): (points: seq<Point>)
    ensures |points| == 4 && points[0] == p1
    ensures points[1] == RungeKutta4Step(ivp, h, points[0])
    ensures points[2] == RungeKutta4Step(ivp, h, points[1])
    ensures points[3] == RungeKutta4Step(ivp, h, points[2])
    ensures StartsForward(points, h, p1)
  {
    var p2 := RungeKutta4Step(ivp, h, p1);
    var p3 := RungeKutta4Step(ivp, h, p2);
    var p4 := RungeKutta4Step(ivp, h, p3);
    [p1, p2, p3, p4]
  }

  /** The fourth-order Adams-Bashforth formula on a history, oldest first. */
  function AdamsNext(ivp: ProblemDefinition, h: real, history: seq<Point>): (next: Point)
    requires |history| == 4
    ensures next.x == history[3].x + h
  {
    var xPrev, yPrev := history[3].x, history[3].y;
    var yNext := yPrev + h * (55.0 / 24.0 * FAt(ivp, history[3]) -
                              59.0 / 24.0 * FAt(ivp, history[2]) +
                              37.0 / 24.0 * FAt(ivp, history[1]) -
                              9.0 / 24.0 * FAt(ivp, history[0]));
    Point(xPrev + h, yNext)
  }

  /** One Adams4 step on a history as a value: the Adams-Bashforth point
      from four points; before Init there is no history and the step fails. */
  function AdamsStep(ivp: ProblemDefinition, h: real, history: seq<Point>): (r: Result<Point>)
    ensures r.Success? <==> |history| == 4
    ensures r.Success? ==> r.value.x == history[3].x + h
  {
    if |history| != 4 then Failure(DegenerateHistory) else Success(AdamsNext(ivp, h, history))
  }

  /** A method object as getSeriesBy receives it: a stateless object whose
      step maps (h, prevCoords) to the next point, or an object with an
      init, which bootstraps a history from the first point, and a step,
      which computes the next point from the history it keeps. */
  datatype MethodObject =
    | Stateless(name: string, step: (real, Point) -> Point)
    | WithHistory(name: string, init: (real, Point) -> seq<Point>,
                  stepFromHistory: (real, seq<Point>) -> Result<Point>)

  /** The four points of an init from p are h apart, starting at p. */
  predicate StartsForward(points: seq<Point>, h: real, p: Point)
  {
    |points| == 4 && points[0] == p && points[1].x == p.x + h &&
    points[2].x == points[1].x + h && points[3].x == points[2].x + h
  }

  /** Every step of the object moves x forward by exactly h from the newest
      point, and an init lays out its history h apart. */
  ghost predicate StepsForward(obj: MethodObject)
  {
    match obj
    case Stateless(_, step) => forall h, p :: step(h, p).x == p.x + h
    case WithHistory(_, init, stepFromHistory) =>
      (forall h: real, p: Point :: StartsForward(init(h, p), h, p)) &&
      (forall h: real, history: seq<Point> | |history| == 4 ::
         stepFromHistory(h, history).Success? &&
         stepFromHistory(h, history).value.x == history[3].x + h)
  }

  /** An object with a history runs the Adams4 rules on ivp: its init is the
      Runge-Kutta bootstrap and its step the Adams-Bashforth step. */
  ghost predicate RunsAdams4(obj: MethodObject, ivp: ProblemDefinition)
  {
    obj.WithHistory? ==>
      (forall h, p :: obj.init(h, p) == Bootstrap(ivp, h, p)) &&
      (forall h, history :: obj.stepFromHistory(h, history) == AdamsStep(ivp, h, history))
  }

  /** The Adams4 object on ivp: Runge-Kutta bootstrap and Adams-Bashforth
      step. */
  function Adams4Object(ivp: ProblemDefinition): (obj: MethodObject)
    ensures obj.WithHistory? && obj.name == Label(Adams4)
    ensures StepsForward(obj) && RunsAdams4(obj, ivp)
  {
    WithHistory(Label(Adams4), (h, p) => Bootstrap(ivp, h, p), (h, history) => AdamsStep(ivp, h, history))
  }

  /** The stateless object of m on ivp, stepping with m's rule. */
  function RuleObject(m: Method, ivp: ProblemDefinition): (obj: MethodObject)
    requires m != Adams4
    ensures obj.Stateless? && obj.name == Label(m)
    ensures forall h, p :: obj.step(h, p) == StepOf(m, ivp, h, p)
    ensures StepsForward(obj)
  {
    Stateless(Label(m), (h, p) => StepOf(m, ivp, h, p))
  }

  /** The method object defined for m, stepping the problem ivp: only
      Adams4 has an init, the others step with their own rule. */
  function ObjectOf(m: Method, ivp: ProblemDefinition): (obj: MethodObject)
    ensures obj.name == Label(m)
    ensures obj.WithHistory? <==> m == Adams4
    ensures m != Adams4 ==> forall h, p :: obj.step(h, p) == StepOf(m, ivp, h, p)
    ensures StepsForward(obj) && RunsAdams4(obj, ivp)
  {
    if m == Adams4 then Adams4Object(ivp) else RuleObject(m, ivp)
  }

  /** The Adams4 method object. Its history is empty until Init is called and
      holds the four most recent points, oldest first, from then on. */
  class Adams4Method {
    var previousPoints: seq<Point>

    ghost predicate Valid()
      reads this
    {
      |previousPoints| == 0 || |previousPoints| == 4
    }

    constructor ()
      ensures Valid() && previousPoints == []
    {
      previousPoints := [];
    }

    /** Bootstraps the history from p1 and returns a copy of it. */
    method Init(ivp: ProblemDefinition, h: real, p1: Point) returns (points: seq<Point>)
      modifies this
      ensures Valid()
      ensures previousPoints == Bootstrap(ivp, h, p1)
      ensures points == previousPoints
    {
      var p2 := RungeKutta4Step(ivp, h, p1);
      var p3 := RungeKutta4Step(ivp, h, p2);
      var p4 := RungeKutta4Step(ivp, h, p3);
      previousPoints := [p1, p2, p3, p4];
      points := previousPoints;
    }

    /** One Adams-Bashforth step from the history; prevCoords is not used.
        The oldest point is dropped and the new one appended. Before Init
        there is no history and the step fails. */
    method Step(ivp: ProblemDefinition, h: real, prevCoords: Point) returns (r: Result<Point>)
      requires Valid()
      modifies this
      ensures Valid()
      ensures r == AdamsStep(ivp, h, old(previousPoints))
      ensures old(previousPoints) == [] ==> previousPoints == []
      ensures |old(previousPoints)| == 4 ==>
                previousPoints == [old(previousPoints)[1], old(previousPoints)[2],
                                   old(previousPoints)[3], r.value]
    {
      if |previousPoints| != 4 {
        return Failure(DegenerateHistory);
      }
      var next := AdamsNext(ivp, h, previousPoints);
      previousPoints := previousPoints[1..];
      previousPoints := previousPoints + [next];
      r := Success(next);
    }
  }

  /** Backward Euler is explicit: its predictor is one Euler step, and the
      result averages the slopes at the start and at the predicted point. */
  lemma BackwardEulerIsExplicitTrapezoid(ivp: ProblemDefinition, h: real, prev: Point)
    ensures BackwardEulerStep(ivp, h, prev).y
         == prev.y + h / 2.0 * (FAt(ivp, prev) + FAt(ivp, EulerStep(ivp, h, prev)))
  {
  }

  /** Cauchy's rule takes the slope at the end of a half Euler step. */
  lemma CauchyIsMidpoint(ivp: ProblemDefinition, h: real, prev: Point)
    ensures CauchyStep(ivp, h, prev).y == prev.y + h * FAt(ivp, EulerStep(ivp, h / 2.0, prev))
  {
  }

  /** f ignores y: the problem is the quadrature y' = f(x). */
  ghost predicate IndependentOfY(ivp: ProblemDefinition)
  {
    forall x, y :: ivp.f(x, y) == ivp.f(x, 0.0)
  }

  /** When f ignores y, the single-step rules are the classical quadrature
      rules for the integral of f over [x, x + h]: Euler the left rectangle,
      "Backward Euler" the trapezoid, Cauchy the midpoint and RK4 Simpson's
      rule. */
  lemma QuadratureRules(ivp: ProblemDefinition, h: real, prev: Point)
    requires IndependentOfY(ivp)
    ensures EulerStep(ivp, h, prev).y == prev.y + h * ivp.f(prev.x, 0.0)
    ensures BackwardEulerStep(ivp, h, prev).y
         == prev.y + h / 2.0 * (ivp.f(prev.x, 0.0) + ivp.f(prev.x + h, 0.0))
    ensures CauchyStep(ivp, h, prev).y == prev.y + h * ivp.f(prev.x + h / 2.0, 0.0)
    ensures RungeKutta4Step(ivp, h, prev).y
         == prev.y + h / 6.0 * (ivp.f(prev.x, 0.0) + 4.0 * ivp.f(prev.x + h / 2.0, 0.0)
                                + ivp.f(prev.x + h, 0.0))
  {
  }

  /** The second-order Taylor rule is Euler plus the h^2/2 term of the total
      derivative; the third-order rule adds the h^3/6 term to it. */
  lemma TaylorRulesExtend(ivp: ProblemDefinition, h: real, prev: Point)
    ensures Taylor2Step(ivp, h, prev).y
         == EulerStep(ivp, h, prev).y + h * h / 2.0 * TotalDerivative(ivp, prev.x, prev.y)
    ensures Taylor3Step(ivp, h, prev).y
         == Taylor2Step(ivp, h, prev).y
            + h * h * h / 6.0 * (ivp.dfd2x(prev.x, prev.y)
                                 + 2.0 * ivp.dfdxdy(prev.x, prev.y) * ivp.f(prev.x, prev.y)
                                 + ivp.dfdy(prev.x, prev.y) * TotalDerivative(ivp, prev.x, prev.y))
  {
  }

  /** For the reference problem, along y = C exp(E(x)) with E' = df/dy,
      E'' = d2f/dxdy and E''' = 100, the solution's second derivative is
      y (E'' + E'^2) and its third derivative y (E''' + 3 E' E'' + E'^3): the
      Taylor rules' h^2/2 and h^3/6 coefficients are exactly these. */
  lemma TaylorCoefficientsAreSolutionDerivatives(exp: real -> real, x: real, y: real)
    ensures TotalDerivative(Reference(exp), x, y)
         == y * (Dfdxdy(x, y) + Dfdy(x, y) * Dfdy(x, y))
    ensures Dfd2x(x, y) + 2.0 * Dfdxdy(x, y) * F(x, y) + Dfdy(x, y) * TotalDerivative(Reference(exp), x, y)
         == y * (100.0 + 3.0 * Dfdy(x, y) * Dfdxdy(x, y) + Dfdy(x, y) * Dfdy(x, y) * Dfdy(x, y))
  {
  }

  /** The Adams-Bashforth weights 55, -59, 37, -9 (over 24) sum to one: when
      all four stored slopes are equal, the step is an Euler step from the
      newest point. */
  lemma AdamsWeightsAreConsistent(ivp: ProblemDefinition, h: real, history: seq<Point>)
    requires |history| == 4
    requires forall i | 0 <= i < 4 :: FAt(ivp, history[i]) == FAt(ivp, history[3])
    ensures AdamsNext(ivp, h, history) == EulerStep(ivp, h, history[3])
  {
  }
}
