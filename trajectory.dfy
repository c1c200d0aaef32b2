/** The series getSeriesBy draws for a method object: the points it produces
    from the initial condition with step h until x reaches 1, the last
    segment cut at x = 1. */
module Trajectory {
  import opened Problem
  import opened StepMethods

  /** The grid point x_k, reached from x_0 = 0 by k steps of h. */
  function GridX(k: nat, h: real): real
  {
    if k == 0 then 0.0 else GridX(k - 1, h) + h
  }

  lemma {:induction false} GridXIsMultiple(k: nat, h: real)
    ensures GridX(k, h) == (k as real) * h
  {
    if k > 0 {
      GridXIsMultiple(k - 1, h);
      assert ((k - 1) as real) * h + h == (k as real) * h;
    }
  }

  /** Every point of s is on the grid: s[i].x = x_i. */
  predicate OnGrid(s: seq<Point>, h: real)
  {
    forall i | 0 <= i < |s| :: s[i].x == GridX(i, h)
  }

  /** The last point of s is the grid point x_(|s| - 1). */
  predicate EndsOnGrid(s: seq<Point>, h: real)
    requires |s| >= 1
  {
    s[|s| - 1].x == GridX(|s| - 1, h)
  }

  /** A series the next step can be taken from: a last point, and for the
      object with a history the four points of it. */
  predicate Admissible(obj: MethodObject, done: seq<Point>)
  {
    |done| >= 1 && (obj.WithHistory? ==> |done| >= 4)
  }

  /** An index beyond every grid point below x = 1. */
  function StepBound(h: real): int
    requires h > 0.0
  {
    (1.0 / h).Floor + 1
  }

  lemma ScaleBelow(a: real, b: real, c: real)
    requires c > 0.0 && a < b
    ensures a * c < b * c
  {
  }

  lemma CancelStep(r: real, h: real)
    requires h > 0.0
    ensures (r * h) * (1.0 / h) == r
  {
  }

  /** Every grid point below x = 1 has an index below StepBound(h). */
  lemma BelowStepBound(h: real, k: nat)
    requires h > 0.0 && GridX(k, h) < 1.0
    ensures k < StepBound(h)
  {
    var r := k as real;
    GridXIsMultiple(k, h);
    ScaleBelow(r * h, 1.0, 1.0 / h);
    CancelStep(r, h);
    assert r < 1.0 / h;
  }

  /** The index of the point the do-while loop ends with when its first
      step appends index i: the first grid index from i on whose x reaches 1. */
  function LastIndex(h: real, i: nat): (k: nat)
    requires h > 0.0
    ensures k >= i && GridX(k, h) >= 1.0
    ensures forall j | i <= j < k :: GridX(j, h) < 1.0
    decreases StepBound(h) - i
  {
    if GridX(i, h) >= 1.0 then i
    else
      BelowStepBound(h, i);
      LastIndex(h, i + 1)
  }

  /** The points the loop starts from: for an object with an init the
      history it bootstraps from the initial condition, for every other
      object the initial condition. */
  function Seed(obj: MethodObject, h: real): (s: seq<Point>)
    requires StepsForward(obj)
    ensures Admissible(obj, s) && EndsOnGrid(s, h) && s[0] == Initial
    ensures obj.WithHistory? ==> s == obj.init(h, Initial)
    ensures obj.Stateless? ==> s == [Initial]
  {
    if obj.WithHistory? then
      var s := obj.init(h, Initial);
      assert StartsForward(s, h, Initial);
      assert GridX(3, h) == GridX(2, h) + h && GridX(2, h) == GridX(1, h) + h && GridX(1, h) == h;
      s
    else
      [Initial]
  }

  /** The seed lies on the grid. */
  lemma SeedOnGrid(obj: MethodObject, h: real)
    requires StepsForward(obj)
    ensures OnGrid(Seed(obj, h), h)
  {
  }

  /** The four most recent points of s, oldest first. */
  function History(s: seq<Point>): (history: seq<Point>)
    requires |s| >= 4
    ensures |history| == 4
  {
    [s[|s| - 4], s[|s| - 3], s[|s| - 2], s[|s| - 1]]
  }

  /** The point the object computes after the points done: an object with
      a history from the last four of them, a stateless one from the last. */
  function Next(obj: MethodObject, h: real, done: seq<Point>): (next: Point)
    requires StepsForward(obj) && Admissible(obj, done)
    ensures next.x == done[|done| - 1].x + h
  {
    match obj
    case Stateless(_, step) => step(h, done[|done| - 1])
    case WithHistory(_, _, stepFromHistory) => stepFromHistory(h, History(done)).value
  }

  /** The points done followed by n more steps of the object. */
  function Run(obj: MethodObject, h: real, done: seq<Point>, n: nat): (r: seq<Point>)
    requires StepsForward(obj) && Admissible(obj, done)
    ensures |r| == |done| + n && Admissible(obj, r)
  {
    if n == 0 then done
    else
      var r := Run(obj, h, done, n - 1);
      r + [Next(obj, h, r)]
  }

  /** From index k on, every point of u is the object's next point after
      the points before it. */
  predicate Follows(obj: MethodObject, h: real, u: seq<Point>, k: nat)
    requires StepsForward(obj) && k <= |u| && Admissible(obj, u[..k])
  {
    forall i {:trigger u[..i]} | k <= i < |u| :: u[i] == Next(obj, h, u[..i])
  }

  /** A run keeps the points done as its prefix, and every point it appends
      is the object's next point after the points before it. */
  lemma {:induction false} RunSteps(obj: MethodObject, h: real,
                                    done: seq<Point>, n: nat)
    requires StepsForward(obj) && Admissible(obj, done)
    ensures var r := Run(obj, h, done, n);
            r[..|done|] == done && Follows(obj, h, r, |done|)
  {
    var r := Run(obj, h, done, n);
    if n > 0 {
      var r' := Run(obj, h, done, n - 1);
      RunSteps(obj, h, done, n - 1);
      assert r == r' + [Next(obj, h, r')];
      assert r[..|r'|] == r';
      assert r[..|done|] == r'[..|done|];
      forall i | |done| <= i < |r|
        ensures r[i] == Next(obj, h, r[..i])
      {
        if i < |r'| {
          assert r[..i] == r'[..i];
        }
      }
    } else {
      assert r[..|done|] == done;
    }
  }

  /** A run from points that end on the grid stays on the grid. */
  lemma {:induction false} RunOnGrid(obj: MethodObject, h: real,
                                     done: seq<Point>, n: nat)
    requires StepsForward(obj) && Admissible(obj, done) && EndsOnGrid(done, h)
    ensures var r := Run(obj, h, done, n);
            forall i | |done| - 1 <= i < |r| :: r[i].x == GridX(i, h)
  {
    if n > 0 {
      var r' := Run(obj, h, done, n - 1);
      RunOnGrid(obj, h, done, n - 1);
      var r := r' + [Next(obj, h, r')];
      assert r[|r'|].x == GridX(|r'|, h);
      assert r[..|r'|] == r';
    }
  }

  /** The number of steps the do-while loop takes from a seed of L points. */
  function StepCount(h: real, L: nat): (count: nat)
    requires h > 0.0
    ensures count >= 1
  {
    LastIndex(h, L) + 1 - L
  }

  /** getSeriesBy before the cut: the seed, then steps until the appended
      point has x >= 1. */
  function Unclamped(obj: MethodObject, h: real): (u: seq<Point>)
    requires h > 0.0 && StepsForward(obj)
    ensures |u| >= 2
    ensures |u| == LastIndex(h, |Seed(obj, h)|) + 1
  {
    var seed := Seed(obj, h);
    Run(obj, h, seed, StepCount(h, |seed|))
  }

  /** The loop counter after n steps from a seed of L points, while the loop
      goes on: the index of the last point is below the one the loop ends at. */
  predicate Looping(h: real, L: nat, n: nat)
  {
    h > 0.0 && L + n <= LastIndex(h, L) && LastIndex(h, L + n) == LastIndex(h, L)
  }

  /** One turn of the loop counter: the loop goes on while the new grid
      point is below x = 1 and has taken all its steps once it is not. */
  lemma CountTurn(h: real, L: nat, n: nat)
    requires Looping(h, L, n)
    ensures GridX(L + n, h) < 1.0 ==> Looping(h, L, n + 1)
    ensures GridX(L + n, h) >= 1.0 ==> n + 1 == StepCount(h, L)
  {
  }

  /** One turn of the loop on the points: the run grows by the next point,
      which is the next grid point. */
  lemma RunTurn(obj: MethodObject, h: real, seed: seq<Point>, n: nat)
    requires StepsForward(obj) && Admissible(obj, seed) && EndsOnGrid(Run(obj, h, seed, n), h)
    ensures var done := Run(obj, h, seed, n);
            var next := Next(obj, h, done);
            Run(obj, h, seed, n + 1) == done + [next] &&
            next.x == GridX(|seed| + n, h) &&
            EndsOnGrid(done + [next], h)
  {
  }

  /** The point at x = 1 on the line through nextToLast with the slope of
      the segment to last, which lies h further along. */
  function CutPoint(nextToLast: Point, last: Point, h: real): (p: Point)
    requires h != 0.0
    ensures p.x == 1.0
  {
    var lastSegmentTangent := (last.y - nextToLast.y) / h;
    Point(1.0, nextToLast.y + lastSegmentTangent * (1.0 - nextToLast.x))
  }

  /** c lies on the line through a and b. */
  predicate OnLine(a: Point, b: Point, c: Point)
  {
    (c.y - a.y) * (b.x - a.x) == (b.y - a.y) * (c.x - a.x)
  }

  /** When b lies one step h after a, the cut point lies on the line through
      a and b, and it is b itself when b is already at x = 1. */
  lemma CutPointOnSegment(a: Point, b: Point, h: real)
    requires h != 0.0 && b.x == a.x + h
    ensures OnLine(a, b, CutPoint(a, b, h))
    ensures b.x == 1.0 ==> CutPoint(a, b, h) == b
  {
  }

  /** The last point moved back along the last segment to x = 1, if it lies
      beyond 1. */
  function CutLastSegment(u: seq<Point>, h: real): (s: seq<Point>)
    requires |u| >= 2 && h != 0.0
    ensures |s| == |u| && s[..|u| - 1] == u[..|u| - 1]
    ensures u[|u| - 1].x >= 1.0 ==> s[|s| - 1].x == 1.0
    ensures u[|u| - 1].x <= 1.0 ==> s == u
  {
    if u[|u| - 1].x > 1.0 then u[|u| - 1 := CutPoint(u[|u| - 2], u[|u| - 1], h)] else u
  }

  /** The series getSeriesBy returns for a method object and a step. */
  function Series(obj: MethodObject, h: real): seq<Point>
    requires h > 0.0 && StepsForward(obj)
  {
    CutLastSegment(Unclamped(obj, h), h)
  }

  /** The history the Adams4 object holds once the loop is done. */
  function FinalHistory(obj: MethodObject, h: real): (history: seq<Point>)
    requires h > 0.0 && StepsForward(obj) && obj.WithHistory?
    ensures |history| == 4
  {
    History(Unclamped(obj, h))
  }

  /** method.step(h, coords): the call dispatches on the method object. The
      object with a history is the shared Adams4 object, which steps from
      its own history of the points done so far and ignores coords; a
      stateless object steps from coords. */
  method DispatchStep(obj: MethodObject, ivp: ProblemDefinition, h: real, coords: Point,
                      adams: Adams4Method, ghost done: seq<Point>)
    returns (next: Point)
    requires StepsForward(obj) && RunsAdams4(obj, ivp)
    requires Admissible(obj, done) && coords == done[|done| - 1]
    requires obj.WithHistory? ==> adams.Valid() && adams.previousPoints == History(done)
    modifies adams
    ensures next == Next(obj, h, done)
    ensures obj.WithHistory? ==>
              adams.Valid() && adams.previousPoints == History(done + [next])
    ensures obj.Stateless? ==> adams.previousPoints == old(adams.previousPoints)
  {
    if obj.WithHistory? {
      var r := adams.Step(ivp, h, coords);
      next := r.value;
    } else {
      next := obj.step(h, coords);
    }
  }

  /** The start of getSeriesBy: an object with an init (Adams4) bootstraps
      its history from the initial condition and the series is that
      history; for every other object the series is the initial condition. */
  method Start(obj: MethodObject, ivp: ProblemDefinition, h: real, adams: Adams4Method)
    returns (result: seq<Point>, coords: Point)
    requires StepsForward(obj) && RunsAdams4(obj, ivp)
    modifies adams
    ensures result == Seed(obj, h) && coords == result[|result| - 1]
    ensures obj.WithHistory? ==> adams.Valid() && adams.previousPoints == History(result)
    ensures obj.Stateless? ==> adams.previousPoints == old(adams.previousPoints)
  {
    result := [];
    coords := Initial;
    if obj.WithHistory? {
      result := adams.Init(ivp, h, coords);
      coords := result[|result| - 1];
    } else {
      result := result + [coords];
    }
  }

  /** The state of getSeriesBy's loop after n turns from the seed: the
      series is the seed and n steps, coords is its last point and lies on
      the grid, the loop has not yet stopped, and the Adams4 object holds
      the four most recent points when it is the one stepping. */
  ghost predicate Looped(obj: MethodObject, h: real, n: nat, result: seq<Point>,
                         coords: Point, adams: Adams4Method)
    reads adams
  {
    h > 0.0 && StepsForward(obj) &&
    Looping(h, |Seed(obj, h)|, n) &&
    result == Run(obj, h, Seed(obj, h), n) &&
    EndsOnGrid(result, h) && coords == result[|result| - 1] &&
    (obj.WithHistory? ==> adams.Valid() && adams.previousPoints == History(result))
  }

  /** One turn of the do-while loop: coords = method.step(h, coords), then
      result.push(coords). The loop goes on from the new state while x is
      below 1; otherwise the series before the cut is complete. */
  method LoopTurn(obj: MethodObject, ivp: ProblemDefinition, h: real, adams: Adams4Method,
                  ghost n: nat, result: seq<Point>, coords: Point)
    returns (pushed: seq<Point>, next: Point)
    requires RunsAdams4(obj, ivp) && Looped(obj, h, n, result, coords, adams)
    modifies adams
    ensures pushed == result + [next]
    ensures obj.WithHistory? ==> coords == old(adams.previousPoints)[3]
    ensures next.x < 1.0 ==> Looped(obj, h, n + 1, pushed, next, adams)
    ensures next.x >= 1.0 ==> pushed == Unclamped(obj, h)
    ensures obj.WithHistory? ==> adams.Valid() && adams.previousPoints == History(pushed)
    ensures obj.Stateless? ==> adams.previousPoints == old(adams.previousPoints)
  {
    ghost var seed := Seed(obj, h);
    next := DispatchStep(obj, ivp, h, coords, adams, result);
    RunTurn(obj, h, seed, n);
    CountTurn(h, |seed|, n);
    pushed := result + [next];
    if next.x >= 1.0 {
      assert n + 1 == StepCount(h, |seed|);
    }
  }

  /** The first part of getSeriesBy: the start, then the do-while loop that
      steps until x >= 1. The Adams4 object is the one every call shares:
      Init resets its history, and the loop leaves it holding the last four
      points; stateless objects do not touch it. */
  method StepUntilOne(obj: MethodObject, ivp: ProblemDefinition, h: real, adams: Adams4Method)
    returns (result: seq<Point>)
    requires h > 0.0 && StepsForward(obj) && RunsAdams4(obj, ivp) && adams.Valid()
    modifies adams
    ensures result == Unclamped(obj, h)
    ensures obj.WithHistory? ==> adams.Valid() && adams.previousPoints == History(result)
    ensures obj.Stateless? ==> adams.previousPoints == old(adams.previousPoints)
  {
    var coords;
    result, coords := Start(obj, ivp, h, adams);
    ghost var n: nat := 0;
    while true
      invariant Looped(obj, h, n, result, coords, adams)
      invariant obj.Stateless? ==> adams.previousPoints == old(adams.previousPoints)
      decreases LastIndex(h, |Seed(obj, h)|) - n
    {
      result, coords := LoopTurn(obj, ivp, h, adams, n, result, coords);
      if coords.x >= 1.0 {
        break;
      }
      n := n + 1;
    }
  }

  /** getSeriesBy: the points of StepUntilOne with the last segment cut at
      x = 1. */
  method GetSeriesBy(obj: MethodObject, ivp: ProblemDefinition, h: real, adams: Adams4Method)
    returns (result: seq<Point>)
    requires h > 0.0 && StepsForward(obj) && RunsAdams4(obj, ivp) && adams.Valid()
    modifies adams
    ensures result == Series(obj, h)
    ensures obj.WithHistory? ==> adams.Valid() && adams.previousPoints == FinalHistory(obj, h)
    ensures obj.Stateless? ==> adams.previousPoints == old(adams.previousPoints)
  {
    result := StepUntilOne(obj, ivp, h, adams);
    ghost var u := result;
    var last := result[|result| - 1];
    if last.x > 1.0 {
      var nextToLast := result[|result| - 2];
      result := result[|result| - 1 := CutPoint(nextToLast, last, h)];
    }
    assert result == CutLastSegment(u, h);
  }
}
