/** What getSeriesBy's result is: its prefix, its grid, its length, the
    steps it is made of and its cut last point. */
module SeriesProperties {
  import opened Problem
  import opened StepMethods
  import opened Trajectory

  /** The grid points strictly increase for a positive step. */
  lemma {:induction false} GridXIncreasing(i: nat, j: nat, h: real)
    requires h > 0.0 && i < j
    ensures GridX(i, h) < GridX(j, h)
  {
    if i < j - 1 {
      GridXIncreasing(i, j - 1, h);
    }
  }

  /** The loop ends at the first grid index k from L on with x_k >= 1: the
      grid point before it is below 1 unless k is L itself and L > 1. */
  lemma LastIndexIsFirst(h: real, L: nat)
    requires h > 0.0
    ensures var k := LastIndex(h, L);
            1.0 <= GridX(k, h) && (k > L || L <= 1 ==> GridX(k, h) < 1.0 + h)
  {
  }

  /** k steps of h reach x = 1. */
  predicate Covers(k: nat, h: real)
  {
    1.0 <= (k as real) * h
  }

  /** k steps of h reach x = 1 and k - 1 steps stay below it. */
  predicate FirstCover(k: nat, h: real)
  {
    Covers(k, h) && (k as real) * h < 1.0 + h
  }

  /** A first cover is the least number of steps that reaches x = 1. */
  lemma FirstCoverIsLeast(k: nat, h: real, j: nat)
    requires h > 0.0 && FirstCover(k, h) && j < k
    ensures !Covers(j, h)
  {
    var d := (k as real) - 1.0 - (j as real);
    assert d >= 0.0 && d * h >= 0.0;
    assert (k as real) * h == (j as real) * h + d * h + h;
  }

  /** In multiples of the step: the loop's last index k covers [0, 1], and
      it is the first cover unless k is L itself and L > 1. */
  lemma LastIndexBounds(h: real, L: nat, k: nat)
    requires h > 0.0 && k == LastIndex(h, L)
    ensures Covers(k, h) && (k > L || L <= 1 ==> FirstCover(k, h))
  {
    LastIndexIsFirst(h, L);
    GridXIsMultiple(k, h);
  }

  /** While the grid stays below 1 up to index m - 1 the loop goes on: it
      ends at m or later. */
  lemma {:induction false} LastIndexBeyond(h: real, L: nat, m: nat)
    requires h > 0.0 && L < m && GridX(m - 1, h) < 1.0
    ensures LastIndex(h, L) >= m
    decreases m - L
  {
    if L < m - 1 {
      GridXIncreasing(L, m - 1, h);
      LastIndexBeyond(h, L + 1, m);
    }
  }

  /** The series before the cut starts with the seed, lies on the grid, and
      every later point is the object's next point after the ones before it. */
  lemma UnclampedFacts(obj: MethodObject, h: real)
    requires h > 0.0 && StepsForward(obj)
    ensures var u := Unclamped(obj, h);
            var seed := Seed(obj, h);
            |seed| < |u| && u[..|seed|] == seed && Follows(obj, h, u, |seed|) && OnGrid(u, h)
  {
    var seed := Seed(obj, h);
    var n := StepCount(h, |seed|);
    RunSteps(obj, h, seed, n);
    RunOnGrid(obj, h, seed, n);
    SeedOnGrid(obj, h);
    var u := Run(obj, h, seed, n);
    forall i | 0 <= i < |u|
      ensures u[i].x == GridX(i, h)
    {
      if i < |seed| - 1 {
        assert u[i] == u[..|seed|][i];
      }
    }
  }

  /** Every point the loop appends before its last one lies below x = 1,
      and the last one it appends reaches x = 1. */
  lemma AppendedBelowOne(obj: MethodObject, h: real)
    requires h > 0.0 && StepsForward(obj)
    ensures var u := Unclamped(obj, h);
            (forall i | |Seed(obj, h)| <= i < |u| - 1 :: u[i].x < 1.0) && u[|u| - 1].x >= 1.0
  {
    UnclampedFacts(obj, h);
  }

  /** The series has one point per grid index up to the first one at or
      beyond x = 1, begins with the seed (so with the initial condition),
      and ends exactly at x = 1. */
  lemma SeriesShape(obj: MethodObject, h: real)
    requires h > 0.0 && StepsForward(obj)
    ensures var s := Series(obj, h);
            var seed := Seed(obj, h);
            |s| == LastIndex(h, |seed|) + 1 && |seed| < |s| &&
            s[..|seed|] == seed && s[0] == Initial && s[|s| - 1].x == 1.0
  {
    UnclampedFacts(obj, h);
    var u := Unclamped(obj, h);
    var s := Series(obj, h);
    var seed := Seed(obj, h);
    assert s[..|s| - 1] == u[..|u| - 1];
    assert s[..|seed|] == s[..|s| - 1][..|seed|];
    assert u[..|seed|] == u[..|u| - 1][..|seed|];
    assert u[|u| - 1].x == GridX(|u| - 1, h);
    assert s[0] == s[..|seed|][0];
  }

  /** Every point but the last lies on the grid. */
  lemma SeriesOnGrid(obj: MethodObject, h: real)
    requires h > 0.0 && StepsForward(obj)
    ensures var s := Series(obj, h);
            forall i | 0 <= i < |s| - 1 :: s[i].x == GridX(i, h)
  {
    UnclampedFacts(obj, h);
    var u := Unclamped(obj, h);
    var s := Series(obj, h);
    forall i | 0 <= i < |s| - 1
      ensures s[i].x == GridX(i, h)
    {
      assert s[i] == s[..|s| - 1][i] == u[..|u| - 1][i];
    }
  }

  /** Every point but the last has x = i h. */
  lemma SeriesOnMultiples(obj: MethodObject, h: real)
    requires h > 0.0 && StepsForward(obj)
    ensures var s := Series(obj, h);
            forall i | 0 <= i < |s| - 1 :: s[i].x == (i as real) * h
  {
    SeriesOnGrid(obj, h);
    var s := Series(obj, h);
    forall i | 0 <= i < |s| - 1
      ensures s[i].x == (i as real) * h
    {
      GridXIsMultiple(i, h);
    }
  }

  /** Cutting the last segment keeps every point before the last, so every
      step among them is kept as well. */
  lemma CutKeepsSteps(obj: MethodObject, h: real, u: seq<Point>, L: nat)
    requires StepsForward(obj) && h != 0.0 && L < |u| && Admissible(obj, u[..L])
    requires Follows(obj, h, u, L)
    ensures var s := CutLastSegment(u, h);
            forall i | L <= i < |s| - 1 :: s[i] == Next(obj, h, s[..i])
  {
  }

  /** After the seed, every point but the last is the object's next point
      after the points before it. */
  lemma SeriesSteps(obj: MethodObject, h: real)
    requires h > 0.0 && StepsForward(obj)
    ensures |Seed(obj, h)| < |Series(obj, h)|
    ensures var s := Series(obj, h);
            forall i | |Seed(obj, h)| <= i < |s| - 1 :: s[i] == Next(obj, h, s[..i])
  {
    UnclampedFacts(obj, h);
    CutKeepsSteps(obj, h, Unclamped(obj, h), |Seed(obj, h)|);
  }

  /** The cut keeps the points before the last; the new last point is the
      old one moved back to x = 1 when it lies beyond, and lies on the line
      through the last two points when they are h apart. */
  lemma CutFacts(u: seq<Point>, h: real)
    requires |u| >= 2 && h != 0.0 && u[|u| - 1].x == u[|u| - 2].x + h
    ensures var k := |u| - 1;
            var s := CutLastSegment(u, h);
            s[..k] == u[..k] &&
            s[k] == (if u[k].x > 1.0 then CutPoint(u[k - 1], u[k], h) else u[k]) &&
            OnLine(u[k - 1], u[k], s[k])
  {
  }

  /** The loop's last step is the object's next point after all the others
      and reaches x >= 1; the series ends with that point, moved back along
      the last segment to x = 1 when it lies beyond, on the line of the last
      step either way. */
  lemma SeriesLastPoint(obj: MethodObject, h: real)
    requires h > 0.0 && StepsForward(obj)
    ensures var u := Unclamped(obj, h);
            var k := |u| - 1;
            var s := Series(obj, h);
            s == CutLastSegment(u, h) && |Seed(obj, h)| <= k &&
            u[k] == Next(obj, h, u[..k]) && u[k].x == u[k - 1].x + h && u[k].x >= 1.0
    ensures var u := Unclamped(obj, h);
            var k := |u| - 1;
            var s := CutLastSegment(u, h);
            s[..k] == u[..k] &&
            s[k] == (if u[k].x > 1.0 then CutPoint(u[k - 1], u[k], h) else u[k]) &&
            OnLine(u[k - 1], u[k], s[k])
  {
    UnclampedFacts(obj, h);
    var u := Unclamped(obj, h);
    var k := |u| - 1;
    assert u[k] == Next(obj, h, u[..k]);
    assert u[k].x == GridX(k, h);
    CutFacts(u, h);
  }

  /** The number K of steps from x = 0 to the last point covers [0, 1]; for
      a stateless object it is the first cover, the least such number; the
      Adams4 object takes at least the four grid points of its history, and
      more only while they stay below 1. */
  lemma SeriesLength(obj: MethodObject, h: real)
    requires h > 0.0 && StepsForward(obj)
    ensures var k := |Series(obj, h)| - 1;
            Covers(k, h) &&
            (obj.Stateless? ==> FirstCover(k, h)) &&
            (obj.WithHistory? ==> k >= 4 && (k == 4 || FirstCover(k, h)))
  {
    LastIndexBounds(h, |Seed(obj, h)|, |Series(obj, h)| - 1);
  }

  /** Each point before the last lies on the grid below x = 1 when the seed
      does: always for a stateless object, and for the Adams4 object when
      3 h < 1. */
  lemma BelowOne(obj: MethodObject, h: real, i: nat)
    requires h > 0.0 && StepsForward(obj)
    requires obj.Stateless? || 3.0 * h < 1.0
    requires i < |Series(obj, h)| - 1
    ensures Series(obj, h)[i].x == GridX(i, h) < 1.0
  {
    SeriesOnGrid(obj, h);
    SeriesShape(obj, h);
    if i >= |Seed(obj, h)| {
      assert GridX(i, h) < 1.0;
    } else if obj.WithHistory? {
      assert GridX(3, h) == GridX(2, h) + h && GridX(2, h) == GridX(1, h) + h && GridX(1, h) == h;
      if i < 3 {
        GridXIncreasing(i, 3, h);
      }
    }
  }

  /** The x coordinates strictly increase along the series when the seed
      lies below x = 1: always for a stateless object, and for the Adams4
      object when 3 h < 1, which covers every step from 0.0001 to 0.25. */
  lemma SeriesIncreasing(obj: MethodObject, h: real)
    requires h > 0.0 && StepsForward(obj)
    requires obj.Stateless? || 3.0 * h < 1.0
    ensures var s := Series(obj, h);
            forall i, j | 0 <= i < j < |s| :: s[i].x < s[j].x
  {
    var s := Series(obj, h);
    SeriesShape(obj, h);
    forall i, j | 0 <= i < j < |s|
      ensures s[i].x < s[j].x
    {
      BelowOne(obj, h, i);
      if j < |s| - 1 {
        BelowOne(obj, h, j);
        GridXIncreasing(i, j, h);
      }
    }
  }

  /** With 3 h > 1 the Adams4 history already passes x = 1: the loop takes
      one step, and the cut moves the last point back to x = 1, behind the
      point before it. */
  lemma AdamsOvershoot(obj: MethodObject, h: real)
    requires obj.WithHistory? && StepsForward(obj) && 3.0 * h > 1.0
    ensures var s := Series(obj, h);
            |s| == 5 && s[3].x == 3.0 * h && s[4].x == 1.0 && s[4].x < s[3].x
  {
    assert GridX(4, h) == GridX(3, h) + h && GridX(3, h) == GridX(2, h) + h;
    assert GridX(2, h) == GridX(1, h) + h && GridX(1, h) == h;
    assert LastIndex(h, 4) == 4;
    SeriesShape(obj, h);
    SeriesOnGrid(obj, h);
  }

  /** In the series of a stateless rule every point after the first and
      before the last is that rule's step from the point before it. */
  lemma RuleSeriesSteps(m: Method, ivp: ProblemDefinition, h: real)
    requires h > 0.0 && m != Adams4
    ensures var s := Series(ObjectOf(m, ivp), h);
            forall i | 1 <= i < |s| - 1 :: s[i] == StepOf(m, ivp, h, s[i - 1])
  {
    var obj := ObjectOf(m, ivp);
    var s := Series(obj, h);
    SeriesSteps(obj, h);
    forall i | 1 <= i < |s| - 1
      ensures s[i] == StepOf(m, ivp, h, s[i - 1])
    {
      assert s[i] == obj.step(h, s[..i][i - 1]);
    }
  }

  /** The exact-solution series starts at the initial condition and every
      point between the first and the last lies on the exact solution. */
  lemma ExactSeriesOnCurve(ivp: ProblemDefinition, h: real)
    requires h > 0.0
    ensures var s := Series(ObjectOf(ExactSolution, ivp), h);
            s[0] == Initial && forall i | 1 <= i < |s| - 1 :: s[i].y == ivp.exactSolution(s[i].x)
  {
    var s := Series(ObjectOf(ExactSolution, ivp), h);
    SeriesShape(ObjectOf(ExactSolution, ivp), h);
    RuleSeriesSteps(ExactSolution, ivp, h);
    forall i | 1 <= i < |s| - 1
      ensures s[i].y == ivp.exactSolution(s[i].x)
    {
      assert s[i] == StepOf(ExactSolution, ivp, h, s[i - 1]);
    }
  }

  /** The Adams4 series begins with exactly the four points a Runge-Kutta
      series begins with, when both take at least four steps (3 h < 1). */
  lemma AdamsStartsLikeRungeKutta4(ivp: ProblemDefinition, h: real)
    requires h > 0.0 && 3.0 * h < 1.0
    ensures var a := Series(ObjectOf(Adams4, ivp), h);
            var r := Series(ObjectOf(RungeKutta4, ivp), h);
            |a| >= 5 && |r| >= 5 && a[..4] == r[..4]
  {
    var adams, rk := ObjectOf(Adams4, ivp), ObjectOf(RungeKutta4, ivp);
    var a, r := Series(adams, h), Series(rk, h);
    SeriesShape(adams, h);
    SeriesShape(rk, h);
    RuleSeriesSteps(RungeKutta4, ivp, h);
    assert GridX(3, h) == GridX(2, h) + h && GridX(2, h) == GridX(1, h) + h && GridX(1, h) == h;
    LastIndexBeyond(h, 1, 4);
    assert a[..4] == Bootstrap(ivp, h, Initial);
    assert r[..4] == [r[0], r[1], r[2], r[3]];
  }
}
