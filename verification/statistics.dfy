/** Sums, means and the ordinary least-squares line.

    The calibration fits three straight lines (`np.polyfit(x, y, 1)` for the
    strength envelope, `scipy.stats.linregress` for the hyperbolic transform
    and for the stiffness power law). All three are the least-squares line,
    written here in centred form as `linregress` computes it:
      slope = Sxy / Sxx,  intercept = mean(y) - slope mean(x),
    where Sxy sums (x - mean x)(y - mean y) and Sxx sums (x - mean x)^2.
    Sxx vanishes exactly when all abscissae coincide.

    Sums run over the first n elements of a sequence, so that inductive proofs
    keep the sequence fixed and only move the bound. */
module Statistics {
  import opened Outcomes

  /** The product a b. Sums of products are written with it so that its sign
      rules (`ProductSign`) apply to squares such as d d. */
  function Product(a: real, b: real): real {
    a * b
  }

  /** Sign rules of a product, stated over `Product` so that callers never see x * y terms. */
  lemma ProductSign(a: real, b: real)
    ensures a > 0.0 && b > 0.0 ==> Product(a, b) > 0.0
    ensures a < 0.0 && b < 0.0 ==> Product(a, b) > 0.0
    ensures a == 0.0 || b == 0.0 ==> Product(a, b) == 0.0
    ensures a > 0.0 && b < 0.0 ==> Product(a, b) < 0.0
    ensures a != 0.0 && b != 0.0 ==> Product(a, b) != 0.0
  {
  }

  /** xs[0] + ... + xs[n-1]. */
  function SumTo(xs: seq<real>, n: nat): real
    requires n <= |xs|
  {
    if n == 0 then 0.0 else SumTo(xs, n - 1) + xs[n - 1]
  }

  function Sum(xs: seq<real>): real {
    SumTo(xs, |xs|)
  }

  /** Arithmetic mean, `np.mean` of a non-empty array. */
  function Mean(xs: seq<real>): real
    requires |xs| > 0
  {
    Sum(xs) / |xs| as real
  }

  /** us[0] vs[0] + ... + us[n-1] vs[n-1]. */
  function DotTo(us: seq<real>, vs: seq<real>, n: nat): real
    requires n <= |us| && n <= |vs|
  {
    if n == 0 then 0.0 else DotTo(us, vs, n - 1) + Product(us[n - 1], vs[n - 1])
  }

  function Dot(us: seq<real>, vs: seq<real>): real
    requires |us| == |vs|
  {
    DotTo(us, vs, |us|)
  }

  /** The deviations xs[i] - m of the elements from m. */
  function Deviations(xs: seq<real>, m: real): (ds: seq<real>)
    ensures |ds| == |xs|
    ensures forall i | 0 <= i < |xs| :: ds[i] == xs[i] - m
  {
    seq(|xs|, i requires 0 <= i < |xs| => xs[i] - m)
  }

  ghost predicate AllEqual(xs: seq<real>) {
    forall i, j | 0 <= i < |xs| && 0 <= j < |xs| :: xs[i] == xs[j]
  }

  datatype Line = Line(slope: real, intercept: real)

  /** The ordinary least-squares line through the points (xs[i], ys[i]);
      `None` exactly when the abscissae do not determine a slope (no points,
      or all abscissae equal). */
  function LeastSquares(xs: seq<real>, ys: seq<real>): (r: Option<Line>)
    requires |xs| == |ys|
    ensures r.None? <==> AllEqual(xs)
  {
    if |xs| == 0 then None
    else
      var mx := Mean(xs);
      var my := Mean(ys);
      var dx := Deviations(xs, mx);
      DegeneracyCharacterization(xs);
      LineFromMoments(mx, my, Dot(dx, dx), Dot(dx, Deviations(ys, my)))
  }

  /** The line through (mx, my) with slope sxy / sxx; `None` when sxx is zero. */
  function LineFromMoments(mx: real, my: real, sxx: real, sxy: real): (r: Option<Line>)
    ensures r.None? <==> sxx == 0.0
  {
    if sxx == 0.0 then None
    else
      var slope := sxy / sxx;
      Some(Line(slope, my - slope * mx))
  }

  /** The squared deviations from the mean vanish exactly when all elements are equal. */
  lemma DegeneracyCharacterization(xs: seq<real>)
    requires |xs| > 0
    ensures var dx := Deviations(xs, Mean(xs)); Dot(dx, dx) >= 0.0 && (Dot(dx, dx) == 0.0 <==> AllEqual(xs))
  {
    var m := Mean(xs);
    var dx := Deviations(xs, m);
    SquaresPositive(dx, |dx|);
    if AllEqual(xs) {
      MeanOfConstant(xs, xs[0]);
      SquaresZero(dx, |dx|);
    } else {
      var i, j :| 0 <= i < |xs| && 0 <= j < |xs| && xs[i] != xs[j];
      var w := if xs[i] != m then i else j;
      assert dx[w] != 0.0;
    }
  }

  /** A sum of squares is never negative, and is positive as soon as one of
      its terms is non-zero. */
  lemma {:induction false} SquaresPositive(us: seq<real>, n: nat)
    requires n <= |us|
    ensures DotTo(us, us, n) >= 0.0
    ensures (exists i | 0 <= i < n :: us[i] != 0.0) ==> DotTo(us, us, n) > 0.0
  {
    if n > 0 {
      var u := us[n - 1];
      SquaresPositive(us, n - 1);
      ProductSign(u, u);
      if exists i | 0 <= i < n :: us[i] != 0.0 {
        var i :| 0 <= i < n && us[i] != 0.0;
        if i < n - 1 {
          assert DotTo(us, us, n - 1) > 0.0;
        } else {
          assert u != 0.0;
        }
      }
    }
  }

  /** A sum of squares of zeros is zero; the base of `DegeneracyCharacterization`. */
  lemma {:induction false} SquaresZero(us: seq<real>, n: nat)
    requires n <= |us|
    requires forall i | 0 <= i < n :: us[i] == 0.0
    ensures DotTo(us, us, n) == 0.0
  {
    if n > 0 {
      SquaresZero(us, n - 1);
      ProductSign(us[n - 1], us[n - 1]);
    }
  }

  /** Points that lie exactly on y = M x + B, with at least two distinct
      abscissae, are fitted by exactly that line. */
  lemma LeastSquaresExact(xs: seq<real>, ys: seq<real>, M: real, B: real)
    requires |xs| == |ys|
    requires !AllEqual(xs)
    requires forall i | 0 <= i < |xs| :: ys[i] == M * xs[i] + B
    ensures LeastSquares(xs, ys) == Some(Line(M, B))
  {
    var mx := Mean(xs);
    var my := Mean(ys);
    var dx := Deviations(xs, mx);
    var dy := Deviations(ys, my);
    MomentsOfLine(xs, ys, M, B);
    FitOfProportionalMoments(mx, my, Dot(dx, dx), Dot(dx, dy), M, B);
    LeastSquaresIs(xs, ys);
  }

  /** The means and moments of points on y = M x + B with distinct abscissae. */
  lemma MomentsOfLine(xs: seq<real>, ys: seq<real>, M: real, B: real)
    requires |xs| == |ys|
    requires !AllEqual(xs)
    requires forall i | 0 <= i < |xs| :: ys[i] == M * xs[i] + B
    ensures |xs| > 0
    ensures var dx, dy := Deviations(xs, Mean(xs)), Deviations(ys, Mean(ys));
      Dot(dx, dx) != 0.0 && Dot(dx, dy) == M * Dot(dx, dx) && Mean(ys) == M * Mean(xs) + B
  {
    var dx := Deviations(xs, Mean(xs));
    var dy := Deviations(ys, Mean(ys));
    DeviationsOfLine(xs, ys, M, B);
    ScaledDot(dx, dy, M, |dx|);
    DegeneracyCharacterization(xs);
    MeanOfLine(xs, ys, M, B);
  }

  /** `LeastSquares` unfolded into its centred moments. */
  lemma LeastSquaresIs(xs: seq<real>, ys: seq<real>)
    requires |xs| == |ys| > 0
    ensures var dx := Deviations(xs, Mean(xs));
      LeastSquares(xs, ys) == LineFromMoments(Mean(xs), Mean(ys), Dot(dx, dx), Dot(dx, Deviations(ys, Mean(ys))))
  {
  }

  /** On a line, the deviations of the ordinates from their mean are M times
      those of the abscissae. */
  lemma DeviationsOfLine(xs: seq<real>, ys: seq<real>, M: real, B: real)
    requires |xs| == |ys| > 0
    requires forall i | 0 <= i < |xs| :: ys[i] == M * xs[i] + B
    ensures var dx, dy := Deviations(xs, Mean(xs)), Deviations(ys, Mean(ys));
      forall i | 0 <= i < |xs| :: dy[i] == M * dx[i]
  {
    var mx := Mean(xs);
    var my := Mean(ys);
    MeanOfLine(xs, ys, M, B);
    forall i | 0 <= i < |xs|
      ensures ys[i] - my == M * (xs[i] - mx)
    {
      DeviationOfLine(xs[i], ys[i], mx, my, M, B);
    }
  }

  /** On a line, deviations from the means are proportional with factor M. */
  lemma DeviationOfLine(x: real, y: real, mx: real, my: real, M: real, B: real)
    requires y == M * x + B && my == M * mx + B
    ensures y - my == M * (x - mx)
  {
  }

  /** Moments of exact points on y = M x + B give back the line M, B. */
  lemma FitOfProportionalMoments(mx: real, my: real, sxx: real, sxy: real, M: real, B: real)
    requires sxx != 0.0 && sxy == M * sxx && my == M * mx + B
    ensures LineFromMoments(mx, my, sxx, sxy) == Some(Line(M, B))
  {
    QuotientOf(sxy, M, sxx);
    InterceptOfSlope(mx, my, sxy / sxx, M, B);
    SameLine(sxy / sxx, my - (sxy / sxx) * mx, M, B);
    LineFromMomentsIs(mx, my, sxx, sxy);
  }

  /** `LineFromMoments` unfolded for a non-zero spread. */
  lemma LineFromMomentsIs(mx: real, my: real, sxx: real, sxy: real)
    requires sxx != 0.0
    ensures LineFromMoments(mx, my, sxx, sxy) == Some(Line(sxy / sxx, my - (sxy / sxx) * mx))
  {
  }

  /** Equal coefficients give the same line; keeps the final step of the fit an atom match. */
  lemma SameLine(a: real, b: real, M: real, B: real)
    requires a == M && b == B
    ensures Some(Line(a, b)) == Some(Line(M, B))
  {
  }

  /** The intercept my - slope * mx of a line through the means is B. */
  lemma InterceptOfSlope(mx: real, my: real, slope: real, M: real, B: real)
    requires slope == M && my == M * mx + B
    ensures my - slope * mx == B
  {
  }

  /** p / d == v when p == v * d; the slope division, isolated. */
  lemma QuotientOf(p: real, v: real, d: real)
    requires d != 0.0 && p == v * d
    ensures p / d == v
  {
  }

  /** The mean of points on a line lies on that line. */
  lemma MeanOfLine(xs: seq<real>, ys: seq<real>, M: real, B: real)
    requires |xs| == |ys| > 0
    requires forall i | 0 <= i < |xs| :: ys[i] == M * xs[i] + B
    ensures Mean(ys) == M * Mean(xs) + B
  {
    SumOfLine(xs, ys, M, B, |xs|);
    MeanAlgebra(Sum(xs), Sum(ys), |xs| as real, M, B);
  }

  /** Dividing the summed line by the count gives the line through the means. */
  lemma MeanAlgebra(sx: real, sy: real, n: real, M: real, B: real)
    requires n > 0.0 && sy == M * sx + n * B
    ensures sy / n == M * (sx / n) + B
  {
  }

  /** The sum of points on y = M x + B is M times the sum of x plus n B. */
  lemma {:induction false} SumOfLine(xs: seq<real>, ys: seq<real>, M: real, B: real, n: nat)
    requires n <= |xs| == |ys|
    requires forall i | 0 <= i < |xs| :: ys[i] == M * xs[i] + B
    ensures SumTo(ys, n) == M * SumTo(xs, n) + n as real * B
  {
    if n > 0 {
      SumOfLine(xs, ys, M, B, n - 1);
      SumStep(SumTo(xs, n - 1), SumTo(ys, n - 1), (n - 1) as real, xs[n - 1], ys[n - 1], M, B,
              SumTo(xs, n), SumTo(ys, n), n as real);
    }
  }

  /** The inductive step of `SumOfLine` over plain reals. */
  lemma SumStep(sx: real, sy: real, n: real, a: real, y: real, M: real, B: real,
                sx': real, sy': real, n': real)
    requires sy == M * sx + n * B
    requires y == M * a + B
    requires sx' == sx + a && sy' == sy + y && n' == n + 1.0
    ensures sy' == M * sx' + n' * B
  {
  }

  /** When vs = M us pointwise, the dot product of us and vs is M times the
      sum of squares of us. */
  lemma {:induction false} ScaledDot(us: seq<real>, vs: seq<real>, M: real, n: nat)
    requires n <= |us| == |vs|
    requires forall i | 0 <= i < |us| :: vs[i] == M * us[i]
    ensures DotTo(us, vs, n) == M * DotTo(us, us, n)
  {
    if n == 0 {
      ScaledZero(DotTo(us, vs, n), DotTo(us, us, n), M);
    } else {
      ScaledDot(us, vs, M, n - 1);
      DotStep(DotTo(us, vs, n - 1), DotTo(us, us, n - 1), us[n - 1], vs[n - 1], M, DotTo(us, vs, n), DotTo(us, us, n));
    }
  }

  /** The base case 0 == M * 0 of `ScaledDot`, kept as its own step. */
  lemma ScaledZero(c: real, s: real, M: real)
    requires c == 0.0 && s == 0.0
    ensures c == M * s
  {
  }

  /** The inductive step of the proportional cross moment over plain reals. */
  lemma DotStep(c: real, s: real, u: real, v: real, M: real, c': real, s': real)
    requires c == M * s && v == M * u
    requires c' == c + Product(u, v) && s' == s + Product(u, u)
    ensures c' == M * s'
  {
  }

  /** The sum of n copies of v is n v. */
  lemma {:induction false} SumOfConstant(xs: seq<real>, v: real, n: nat)
    requires n <= |xs|
    requires forall i | 0 <= i < n :: xs[i] == v
    ensures SumTo(xs, n) == n as real * v
  {
    if n > 0 {
      SumOfConstant(xs, v, n - 1);
    }
  }

  /** The mean of a constant sequence is that constant. */
  lemma MeanOfConstant(xs: seq<real>, v: real)
    requires |xs| > 0
    requires forall i | 0 <= i < |xs| :: xs[i] == v
    ensures Mean(xs) == v
  {
    SumOfConstant(xs, v, |xs|);
    QuotientOf(Sum(xs), v, |xs| as real);
  }
}
