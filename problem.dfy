/** The initial-value problem y' = f(x, y), y(0) = 0.1, over exact reals:
    the right-hand side, its hand-written partial derivatives and the
    closed-form solution. Math.exp is not modelled: the exact solution takes
    the exponential as a parameter. */
module Problem {

  /** A coordinate (x, y): x is the independent variable, y the state. */
  datatype Point = Point(x: real, y: real)

  /** A scalar first-order initial-value problem y' = f(x, y): the right-hand
      side, the partial derivatives the Taylor rules use, and a closed-form
      solution for the reference curve. */
  datatype ProblemDefinition = ProblemDefinition(
    f: (real, real) -> real,
    dfdx: (real, real) -> real,
    dfdy: (real, real) -> real,
    dfd2x: (real, real) -> real,
    dfdxdy: (real, real) -> real,
    exactSolution: real -> real)

  /** The initial condition of the problem: y(0) = 0.1. */
  const Initial: Point := Point(0.0, 0.1)

  /** The right-hand side f(x, y) = 50 y (x - 0.6) (x - 0.85). */
  function F(x: real, y: real): real
  {
    50.0 * y * (x - 0.6) * (x - 0.85)
  }

  /** df/dx, as written by hand. */
  function Dfdx(x: real, y: real): real
  {
    50.0 * (x - 0.85) * y + 50.0 * (x - 0.6) * y
  }

  /** df/dy, as written by hand (it does not depend on y). */
  function Dfdy(x: real, y: real): real
  {
    50.0 * (x - 0.85) * (x - 0.6)
  }

  /** d2f/dx2, as written by hand. */
  function Dfd2x(x: real, y: real): real
  {
    100.0 * y
  }

  /** d2f/dxdy, as written by hand (it does not depend on y). */
  function Dfdxdy(x: real, y: real): real
  {
    50.0 * (x - 0.85) + 50.0 * (x - 0.6)
  }

  /** The exponent of the closed-form solution: x (50/3 x^2 - 36.25 x + 25.5). */
  function Exponent(x: real): real
  {
    x * (50.0 / 3.0 * x * x - 36.25 * x + 25.5)
  }

  /** The closed-form solution 0.1 exp(Exponent(x)), for a given exponential. */
  function ExactSolution(exp: real -> real, x: real): real
  {
    0.1 * exp(Exponent(x))
  }

  /** The problem the comparison solves, for a given exponential. */
  function Reference(exp: real -> real): (ivp: ProblemDefinition)
    ensures ivp.f == F && ivp.dfdx == Dfdx && ivp.dfdy == Dfdy
    ensures ivp.dfd2x == Dfd2x && ivp.dfdxdy == Dfdxdy
    ensures forall x :: ivp.exactSolution(x) == ExactSolution(exp, x)
  {
    ProblemDefinition(F, Dfdx, Dfdy, Dfd2x, Dfdxdy, x => ExactSolution(exp, x))
  }

  /** f is linear in y with coefficient df/dy, df/dx is linear in y with
      coefficient d2f/dxdy, and d2f/dx2 is 100 y. */
  lemma DerivativesConsistent(x: real, y: real)
    ensures Dfdy(x, y) * y == F(x, y)
    ensures Dfdxdy(x, y) * y == Dfdx(x, y)
    ensures Dfd2x(x, y) == 100.0 * y
  {
  }

  /** f is a quadratic in x: its Taylor expansion in x with the hand-written
      df/dx and d2f/dx2 is exact. */
  lemma FExpansionInX(x: real, y: real, d: real)
    ensures F(x + d, y) == F(x, y) + d * Dfdx(x, y) + d * d / 2.0 * Dfd2x(x, y)
  {
  }

  /** f is linear in y: its expansion in y with the hand-written df/dy is exact. */
  lemma FExpansionInY(x: real, y: real, e: real)
    ensures F(x, y + e) == F(x, y) + e * Dfdy(x, y)
  {
  }

  /** The partial derivatives of df/dx and of df/dy agree with the
      hand-written second derivatives (in particular the mixed partials
      agree), and the derivative of d2f/dxdy in x is 100. */
  lemma SecondDerivativesConsistent(x: real, y: real, d: real, e: real)
    ensures Dfdx(x + d, y) == Dfdx(x, y) + d * Dfd2x(x, y)
    ensures Dfdx(x, y + e) == Dfdx(x, y) + e * Dfdxdy(x, y)
    ensures Dfdy(x + d, y) == Dfdy(x, y) + d * Dfdxdy(x, y) + 50.0 * d * d
    ensures Dfdy(x, y + e) == Dfdy(x, y)
    ensures Dfdxdy(x + d, y) == Dfdxdy(x, y) + 100.0 * d
  {
  }

  /** The exponent's derivative is df/dy: the exact remainder of its
      first-order expansion is d^2 (50 x - 36.25 + 50/3 d). Hence
      y = C exp(Exponent(x)) satisfies y' = df/dy * y = f(x, y). */
  lemma ExponentDerivative(x: real, d: real)
    ensures Exponent(x + d) - Exponent(x)
         == d * Dfdy(x, 0.0) + d * d * (50.0 * x - 36.25 + 50.0 / 3.0 * d)
    ensures Exponent(0.0) == 0.0
  {
  }

  /** For an exponential with exp(0) = 1, the closed-form solution meets the
      initial condition. */
  lemma ExactSolutionMeetsInitial(exp: real -> real)
    requires exp(0.0) == 1.0
    ensures ExactSolution(exp, Initial.x) == Initial.y
  {
  }
}
