/** The estimators of the Hardening Soil parameters (`HardeningSoilParameters`
    in src/parameters.py), each a pure function from triaxial test series to a
    parameter or an error.

    Angles are in degrees. Where numpy would silently produce inf or NaN (a
    zero denominator, an arcsine or logarithm outside its domain) the model
    stops with an error instead; the dilatancy angle, whose NaN the
    calibration averages away, is the exception and is an `Option`. */
module HardeningSoil {
  import opened Outcomes
  import opened Transcendental
  import opened Statistics
  import opened Arrays

  /** p_ref, the reference confining pressure in kPa. */
  const ReferencePressure: real := 100.0
  /** nu_ur, the default unloading-reloading Poisson ratio. */
  const UnloadingPoissonRatio: real := 0.2
  /** The fraction of the peak below which points are dropped from the qa fit. */
  const QaFilterFraction: real := 0.1
  /** The smallest strain the hyperbolic model evaluates (1e-10). */
  const StrainFloor: real := 0.0000000001

  // ---------------------------------------------------------------------
  // Strength: the Mohr-Coulomb envelope fitted to the peak stresses
  // ---------------------------------------------------------------------

  /** Friction angle phi (degrees) and cohesion c (kPa). */
  datatype Strength = Strength(phi: real, c: real)

  /** sin phi of a failure line q = M sigma3 + B: M / (2 + M). */
  function SinPhiOfSlope(M: real): real
    requires M != -2.0
  {
    M / (2.0 + M)
  }

  /** The cohesion of a failure line with intercept B: B (1 - sin phi) / (2 cos phi). */
  function CohesionOfIntercept(B: real, sinPhi: real, cosPhi: real): real
    requires cosPhi != 0.0
  {
    B * (1.0 - sinPhi) / (2.0 * cosPhi)
  }

  /** The Mohr-Coulomb failure stress 2 sin phi (cp + c / tan phi) / (1 - sin phi). */
  function FailureStress(sinPhi: real, tanPhi: real, cp: real, c: real): real
    requires tanPhi != 0.0 && sinPhi != 1.0
  {
    (2.0 * sinPhi) * (cp + c / tanPhi) / (1.0 - sinPhi)
  }

  /** `calculate_phi_and_c`: fit q_peak = M sigma3 + B by least squares, then
      derive phi and c from M and B. */
  function CalculatePhiAndC(f: Functions, pressures: seq<real>, peaks: seq<real>): (r: Result<Strength>)
    requires |pressures| == |peaks|
    ensures AllEqual(pressures) <==> LeastSquares(pressures, peaks).None?
    ensures AllEqual(pressures) ==> r == Err(DegenerateFit)
    ensures !AllEqual(pressures) ==> r == StrengthOfEnvelope(f, LeastSquares(pressures, peaks).value)
  {
    match LeastSquares(pressures, peaks)
    case None => Err(DegenerateFit)
    case Some(line) => StrengthOfEnvelope(f, line)
  }

  /** phi and c from the slope M and intercept B of the failure line:
      sin phi = M / (2 + M), phi = asin(sin phi), c = B (1 - sin phi) / (2 cos phi).
      Each zero denominator and an arcsine argument outside [-1, 1] is an error. */
  function StrengthOfEnvelope(f: Functions, line: Line): (r: Result<Strength>)
    ensures r.Ok? <==>
      && line.slope != -2.0
      && -1.0 <= SinPhiOfSlope(line.slope) <= 1.0
      && f.cosDeg(f.asinDeg(SinPhiOfSlope(line.slope))) != 0.0
    ensures r.Ok? ==>
      var sinPhi := SinPhiOfSlope(line.slope);
      && r.value.phi == f.asinDeg(sinPhi)
      && 2.0 * f.cosDeg(r.value.phi) * r.value.c == line.intercept * (1.0 - sinPhi)
  {
    if line.slope == -2.0 then Err(DivisionByZero)
    else
      var sinPhi := SinPhiOfSlope(line.slope);
      if !(-1.0 <= sinPhi <= 1.0) then Err(OutOfDomain)
      else
        var phi := f.asinDeg(sinPhi);
        var cosPhi := f.cosDeg(phi);
        if cosPhi == 0.0 then Err(DivisionByZero)
        else
          CohesionEquation(line.intercept, sinPhi, cosPhi);
          Ok(Strength(phi, CohesionOfIntercept(line.intercept, sinPhi, cosPhi)))
  }

  /** The intercept equation c = B(1 - sin phi) / (2 cos phi), multiplied out; a non-linear step the solver does not find. */
  lemma CohesionEquation(B: real, s: real, cs: real)
    requires cs != 0.0
    ensures 2.0 * cs * CohesionOfIntercept(B, s, cs) == B * (1.0 - s)
  {
  }

  /** `calculate_qf`: the Mohr-Coulomb deviatoric stress at failure. A missing
      argument is an error, checked in the order phi, c, cp; so is a zero
      tan phi or 1 - sin phi. */
  function CalculateQf(f: Functions, cp: Option<real>, c: Option<real>, phi: Option<real>): (r: Result<real>)
    ensures phi.None? ==> r == Err(MissingParameter("phi"))
    ensures phi.Some? && c.None? ==> r == Err(MissingParameter("c"))
    ensures phi.Some? && c.Some? && cp.None? ==> r == Err(MissingParameter("cp"))
    ensures r.Ok? ==> phi.Some? && c.Some? && cp.Some?
    ensures phi.Some? && c.Some? && cp.Some? ==>
      var s, t := f.sinDeg(phi.value), f.tanDeg(phi.value);
      (r.Ok? <==> t != 0.0 && s != 1.0)
  {
    if phi.None? then Err(MissingParameter("phi"))
    else if c.None? then Err(MissingParameter("c"))
    else if cp.None? then Err(MissingParameter("cp"))
    else
      var s, t := f.sinDeg(phi.value), f.tanDeg(phi.value);
      if t == 0.0 || s == 1.0 then Err(DivisionByZero)
      else Ok(FailureStress(s, t, cp.value, c.value))
  }

  /** The failure stress of present arguments, unfolded. */
  lemma QfIs(f: Functions, cp: real, c: real, phi: real)
    requires f.tanDeg(phi) != 0.0 && f.sinDeg(phi) != 1.0
    ensures CalculateQf(f, Some(cp), Some(c), Some(phi))
         == Ok(FailureStress(f.sinDeg(phi), f.tanDeg(phi), cp, c))
  {
  }

  /** With 0 < sin phi < 1 and tan phi > 0 the failure stress is strictly
      increasing in the confining pressure. */
  lemma QfIncreasingInPressure(f: Functions, c: real, phi: real, cp1: real, cp2: real)
    requires 0.0 < f.sinDeg(phi) < 1.0 && f.tanDeg(phi) > 0.0
    requires cp1 < cp2
    ensures CalculateQf(f, Some(cp1), Some(c), Some(phi)).Ok?
    ensures CalculateQf(f, Some(cp2), Some(c), Some(phi)).Ok?
    ensures CalculateQf(f, Some(cp1), Some(c), Some(phi)).value
          < CalculateQf(f, Some(cp2), Some(c), Some(phi)).value
  {
    QfIs(f, cp1, c, phi);
    QfIs(f, cp2, c, phi);
    FailureStressIncreasing(f.sinDeg(phi), f.tanDeg(phi), c, cp1, cp2);
  }

  /** One step of `QfIncreasingInPressure`: qf grows with sigma3 for a fixed envelope. */
  lemma FailureStressIncreasing(s: real, t: real, c: real, cp1: real, cp2: real)
    requires 0.0 < s < 1.0 && t > 0.0 && cp1 < cp2
    ensures FailureStress(s, t, cp1, c) < FailureStress(s, t, cp2, c)
  {
    ScaledOrder(2.0 * s, 1.0 - s, cp1 + c / t, cp2 + c / t);
  }

  /** Multiplying and dividing by positive reals keeps an order; isolated so the products stay out of the caller. */
  lemma ScaledOrder(a: real, d: real, x1: real, x2: real)
    requires a > 0.0 && d > 0.0 && x1 < x2
    ensures a * x1 / d < a * x2 / d
  {
    ProductSign(a, x2 - x1);
    assert Product(a, x2 - x1) == a * x2 - a * x1;
  }

  /** The strength fit inverts the failure criterion: peak stresses lying
      exactly on q = M sigma3 + B (M > 0, at least two distinct pressures) give
      sin phi = M / (2 + M), and the failure stress computed back from that phi
      and c is M cp + B at every confining pressure cp. */
  lemma FailureLineRoundTrip(f: Functions, pressures: seq<real>, peaks: seq<real>, M: real, B: real, cp: real)
    requires TrigLaws(f)
    requires |pressures| == |peaks| && !AllEqual(pressures)
    requires forall i | 0 <= i < |pressures| :: peaks[i] == M * pressures[i] + B
    requires M > 0.0
    ensures var r := CalculatePhiAndC(f, pressures, peaks);
      && r.Ok?
      && r.value.phi == f.asinDeg(M / (2.0 + M))
      && CalculateQf(f, Some(cp), Some(r.value.c), Some(r.value.phi)) == Ok(M * cp + B)
  {
    LeastSquaresExact(pressures, peaks, M, B);
    var st := FittedStrength(f, M, B);
    var s := SinPhiOfSlope(M);
    QfIs(f, cp, st.c, st.phi);
    FailureStressOfFit(s, f.cosDeg(st.phi), f.tanDeg(st.phi), M, B, cp);
  }

  /** The strength derived from the line q = M sigma3 + B, M > 0, under the
      trigonometric laws: its angle has sine M / (2 + M), positive cosine and
      positive tangent. */
  lemma FittedStrength(f: Functions, M: real, B: real) returns (st: Strength)
    requires TrigLaws(f) && M > 0.0
    ensures var s := SinPhiOfSlope(M);
      && 0.0 < s < 1.0 && 2.0 * s == M * (1.0 - s)
      && StrengthOfEnvelope(f, Line(M, B)) == Ok(st)
      && st.phi == f.asinDeg(s)
      && f.sinDeg(st.phi) == s && f.cosDeg(st.phi) > 0.0 && f.tanDeg(st.phi) > 0.0
      && f.tanDeg(st.phi) * f.cosDeg(st.phi) == s
      && st.c == CohesionOfIntercept(B, s, f.cosDeg(st.phi))
  {
    SineOfSlope(M);
    var s := SinPhiOfSlope(M);
    var phi := f.asinDeg(s);
    var cs := f.cosDeg(phi);
    assert f.sinDeg(phi) == s && cs > 0.0;
    assert f.tanDeg(phi) * cs == s;
    TangentPositive(f.tanDeg(phi), cs, s);
    st := Strength(phi, CohesionOfIntercept(B, s, cs));
  }

  /** sin phi = M / (2 + M) lies in (0, 1) for M > 0, and 2 sin phi = M (1 - sin phi). */
  lemma SineOfSlope(M: real)
    requires M > 0.0
    ensures var s := SinPhiOfSlope(M); 0.0 < s < 1.0 && 2.0 * s == M * (1.0 - s)
  {
    var s := SinPhiOfSlope(M);
    assert s * (2.0 + M) == M;
  }

  /** tan phi = sin phi / cos phi is positive when both are; the division step, isolated. */
  lemma TangentPositive(t: real, cs: real, s: real)
    requires cs > 0.0 && s > 0.0 && t * cs == s
    ensures t > 0.0
  {
    if t <= 0.0 {
      ProductSign(-t, cs);
      assert false;
    }
  }

  /** The algebra of the round trip: with tan phi cos phi = sin phi and
      c = B (1 - sin phi) / (2 cos phi), the failure stress collapses to M cp + B. */
  lemma FailureStressOfFit(s: real, cs: real, t: real, M: real, B: real, cp: real)
    requires 0.0 < s < 1.0 && cs > 0.0 && t > 0.0 && t * cs == s
    requires 2.0 * s == M * (1.0 - s)
    ensures FailureStress(s, t, cp, CohesionOfIntercept(B, s, cs)) == M * cp + B
  {
    var c := CohesionOfIntercept(B, s, cs);
    CohesionOverTangent(s, cs, t, c, B);
    var k := B * (1.0 - s) / (2.0 * s);
    HalfSineTimes(s, B, cp, k);
    DivideFailureSum(s, M, B, cp);
  }

  /** Distributes 2 sin phi over sigma3 + c / tan phi; one algebra step of `FailureLineRoundTrip`. */
  lemma HalfSineTimes(s: real, B: real, cp: real, k: real)
    requires s > 0.0 && k == B * (1.0 - s) / (2.0 * s)
    ensures (2.0 * s) * (cp + k) == 2.0 * s * cp + B * (1.0 - s)
  {
    assert (2.0 * s) * k == B * (1.0 - s);
  }

  /** c / tan phi in terms of the fitted intercept; one algebra step of `FailureLineRoundTrip`. */
  lemma CohesionOverTangent(s: real, cs: real, t: real, c: real, B: real)
    requires 0.0 < s && cs > 0.0 && t > 0.0 && t * cs == s
    requires c == CohesionOfIntercept(B, s, cs)
    ensures c / t == B * (1.0 - s) / (2.0 * s)
  {
    assert 2.0 * cs * c == B * (1.0 - s);
    var q := c / t;
    assert c == q * t;
    assert 2.0 * s * q == 2.0 * cs * c;
  }

  /** Dividing the failure sum by 1 - sin phi gives back M sigma3 + B; the last step of `FailureLineRoundTrip`. */
  lemma DivideFailureSum(s: real, M: real, B: real, cp: real)
    requires 0.0 < s < 1.0 && 2.0 * s == M * (1.0 - s)
    ensures (2.0 * s * cp + B * (1.0 - s)) / (1.0 - s) == M * cp + B
  {
    assert 2.0 * s * cp + B * (1.0 - s) == (M * cp + B) * (1.0 - s);
  }

  /** `calculate_K0_nc`: the earth-pressure coefficient at rest, 1 - sin phi. */
  function K0(f: Functions, phi: real): real {
    1.0 - f.sinDeg(phi)
  }

  /** For the angle fitted from a failure line of slope M > 0,
      K0 = 1 - M / (2 + M) = 2 / (2 + M). */
  lemma K0OfFailureSlope(f: Functions, M: real)
    requires TrigLaws(f) && M > 0.0
    ensures K0(f, f.asinDeg(M / (2.0 + M))) == 2.0 / (2.0 + M)
  {
    SineOfSlope(M);
    var s := SinPhiOfSlope(M);
    assert f.sinDeg(f.asinDeg(s)) == s;
    assert s * (2.0 + M) == M;
  }

  // ---------------------------------------------------------------------
  // Experimental secant modulus E50ref
  // ---------------------------------------------------------------------

  /** The point taken as "at 50 % of the peak": the first index whose stress
      is nearest to half the peak stress. */
  function SecantIndex(stress: seq<real>): (k: nat)
    requires |stress| > 0
    ensures k < |stress|
    ensures forall i | 0 <= i < |stress| ::
      Abs(stress[k] - 0.5 * Max(stress)) <= Abs(stress[i] - 0.5 * Max(stress))
    ensures forall i | 0 <= i < k ::
      Abs(stress[k] - 0.5 * Max(stress)) < Abs(stress[i] - 0.5 * Max(stress))
  {
    ArgMin(Distances(stress, 0.5 * Max(stress)))
  }

  /** `calculate_E50ref`: the secant modulus at `SecantIndex`. An empty
      series is an error. */
  function CalculateE50ref(strain: seq<real>, stress: seq<real>): (r: Result<real>)
    requires |strain| == |stress|
    ensures |stress| == 0 ==> r == Err(EmptySeries)
    ensures |stress| > 0 ==> r == SecantAt(strain, stress, SecantIndex(stress))
  {
    if |stress| == 0 then Err(EmptySeries)
    else SecantAt(strain, stress, SecantIndex(stress))
  }

  /** The secant modulus stress[k] / strain[k] of point k; a zero strain
      there is an error. */
  function SecantAt(strain: seq<real>, stress: seq<real>, k: nat): (r: Result<real>)
    requires k < |strain| == |stress|
    ensures r.Ok? <==> strain[k] != 0.0
    ensures r.Ok? ==> r.value * strain[k] == stress[k]
  {
    if strain[k] == 0.0 then Err(DivisionByZero)
    else
      QuotientTimes(stress[k], strain[k]);
      Ok(stress[k] / strain[k])
  }

  /** p / d * d == p for non-zero d: the secant modulus times the strain is the stress. */
  lemma QuotientTimes(p: real, d: real)
    requires d != 0.0
    ensures p / d * d == p
  {
  }

  /** A test loaded linearly, stress = E strain at every point with non-zero
      strain, has experimental secant modulus E. */
  lemma SecantOfLinearLoading(strain: seq<real>, stress: seq<real>, E: real)
    requires |strain| == |stress| > 0
    requires forall i | 0 <= i < |strain| :: strain[i] != 0.0 && stress[i] == E * strain[i]
    ensures CalculateE50ref(strain, stress) == Ok(E)
  {
    SecantOfProportional(strain, stress, E, SecantIndex(stress));
  }

  /** Per-index step of `SecantOfLinearLoading`: on sigma = E eps every secant is E. */
  lemma SecantOfProportional(strain: seq<real>, stress: seq<real>, E: real, k: nat)
    requires k < |strain| == |stress|
    requires forall i | 0 <= i < |strain| :: strain[i] != 0.0 && stress[i] == E * strain[i]
    ensures SecantAt(strain, stress, k) == Ok(E)
  {
    assert strain[k] != 0.0 && stress[k] == E * strain[k];
    QuotientOf(stress[k], E, strain[k]);
  }

  // ---------------------------------------------------------------------
  // Asymptotic stress qa by the hyperbolic transform
  // ---------------------------------------------------------------------

  /** The points `calculate_qa` fits: those up to and including the first
      peak whose stress exceeds 10 % of the peak of that prefix. That prefix
      peak is the global peak, so the rule reads in terms of `Max(stress)`. */
  function QaFitIndices(stress: seq<real>): (ix: seq<nat>)
    requires |stress| > 0
    ensures forall j | 0 <= j < |ix| ::
      ix[j] <= ArgMax(stress) && stress[ix[j]] > Max(stress) * QaFilterFraction
    ensures forall i | 0 <= i <= ArgMax(stress) && stress[i] > Max(stress) * QaFilterFraction :: i in ix
  {
    var prefix := stress[..ArgMax(stress) + 1];
    ArgMaxOfPrefix(stress, ArgMax(stress) + 1);
    Where(Above(prefix, Max(prefix) * QaFilterFraction))
  }

  /** The fitted points keep the order of the test. */
  lemma QaFitAscending(stress: seq<real>)
    requires |stress| > 0
    ensures Ascending(QaFitIndices(stress))
  {
    var prefix := stress[..ArgMax(stress) + 1];
    WhereAscending(Above(prefix, Max(prefix) * QaFilterFraction));
  }

  /** The peak point itself is fitted whenever the peak stress is positive. */
  lemma PeakKeptWhenPositive(stress: seq<real>)
    requires |stress| > 0 && Max(stress) > 0.0
    ensures ArgMax(stress) in QaFitIndices(stress)
  {
    PeakAboveFraction(Max(stress));
  }

  /** A positive peak exceeds 10 % of itself, so the peak passes the qa filter. */
  lemma PeakAboveFraction(m: real)
    requires m > 0.0
    ensures m > m * QaFilterFraction
  {
  }

  /** The line fitted to eps / q against eps over the points `QaFitIndices`
      selects. An empty series, a zero stress among those points (when the
      peak is not positive) and a degenerate fit are errors. */
  function HyperbolicFit(strain: seq<real>, stress: seq<real>): (r: Result<Line>)
    requires |strain| == |stress|
    ensures |stress| == 0 ==> r == Err(EmptySeries)
    ensures |stress| > 0 ==>
      var ix := QaFitIndices(stress);
      var eps, q := Gather(strain, ix), Gather(stress, ix);
      && (r.Ok? <==> NoZero(q) && !AllEqual(eps))
      && (r.Ok? ==> r == Ok(LeastSquares(eps, Quotients(eps, q)).value))
  {
    if |stress| == 0 then Err(EmptySeries)
    else
      var ix := QaFitIndices(stress);
      var eps, q := Gather(strain, ix), Gather(stress, ix);
      if !NoZero(q) then Err(DivisionByZero)
      else
        match LeastSquares(eps, Quotients(eps, q))
        case None => Err(DegenerateFit)
        case Some(line) => Ok(line)
  }

  /** `calculate_qa`: qa = 1 / slope of the hyperbolic-transform fit, checked
      by `AsymptoteOfSlope` against the observed peak stress. */
  function CalculateQa(strain: seq<real>, stress: seq<real>): (r: Result<real>)
    requires |strain| == |stress|
    ensures HyperbolicFit(strain, stress).Err? ==> r == Err(HyperbolicFit(strain, stress).error)
    ensures HyperbolicFit(strain, stress).Ok? ==>
      r == AsymptoteOfSlope(HyperbolicFit(strain, stress).value.slope, Max(stress))
    ensures r.Ok? ==> r.value > 0.0 && r.value >= Max(stress)
  {
    var line :- HyperbolicFit(strain, stress);
    AsymptoteOfSlope(line.slope, Max(stress))
  }

  /** The asymptote qa = 1 / slope of the transformed line: a slope <= 0 is
      an error, and so is a qa below the observed peak stress, so every qa
      returned is positive and at least the peak. */
  function AsymptoteOfSlope(slope: real, peak: real): (r: Result<real>)
    ensures slope <= 0.0 ==> r == Err(NonPhysicalSlope)
    ensures slope > 0.0 ==> (r.Ok? <==> Reciprocal(slope) >= peak)
    ensures slope > 0.0 && r.Err? ==> r == Err(BelowObservedMaximum)
    ensures r.Ok? ==> r.value > 0.0 && r.value >= peak && r.value * slope == 1.0
  {
    if slope <= 0.0 then Err(NonPhysicalSlope)
    else
      var qa := Reciprocal(slope);
      if qa < peak then Err(BelowObservedMaximum) else Ok(qa)
  }

  /** 1 / x of a positive x: positive, and its product with x is 1. */
  function Reciprocal(x: real): (y: real)
    requires x > 0.0
    ensures y > 0.0 && y * x == 1.0
  {
    1.0 / x
  }

  /** Every point satisfies eps / q = b eps + a: the test lies on the
      hyperbola q = eps / (a + b eps). */
  predicate OnTransformedLine(strain: seq<real>, stress: seq<real>, a: real, b: real)
    requires |strain| == |stress|
  {
    forall i | 0 <= i < |stress| :: stress[i] != 0.0 && strain[i] / stress[i] == b * strain[i] + a
  }

  /** The inverse of the hyperbolic transform: a test whose points satisfy
      eps / q = b eps + a exactly (b > 0, 1 / b at least the peak, the fitted
      strains not all equal) yields qa = 1 / b. */
  lemma QaRecoversHyperbola(strain: seq<real>, stress: seq<real>, a: real, b: real)
    requires |strain| == |stress| > 0
    requires b > 0.0 && Reciprocal(b) >= Max(stress)
    requires OnTransformedLine(strain, stress, a, b)
    requires !AllEqual(Gather(strain, QaFitIndices(stress)))
    ensures CalculateQa(strain, stress) == Ok(Reciprocal(b))
  {
    var ix := QaFitIndices(stress);
    GatheredOnLine(strain, stress, ix, a, b);
    TransformOfLine(Gather(strain, ix), Gather(stress, ix), a, b);
    AsymptoteOfLine(b, Max(stress));
  }

  /** Points chosen from a test on the transformed line lie on it too. */
  lemma GatheredOnLine(strain: seq<real>, stress: seq<real>, ix: seq<nat>, a: real, b: real)
    requires |strain| == |stress|
    requires forall j | 0 <= j < |ix| :: ix[j] < |stress|
    requires OnTransformedLine(strain, stress, a, b)
    ensures OnTransformedLine(Gather(strain, ix), Gather(stress, ix), a, b)
  {
    var eps, q := Gather(strain, ix), Gather(stress, ix);
    forall j | 0 <= j < |ix|
      ensures q[j] != 0.0 && eps[j] / q[j] == b * eps[j] + a
    {
      var i := ix[j];
      assert stress[i] != 0.0 && strain[i] / stress[i] == b * strain[i] + a;
    }
  }

  /** The transformed points eps / q of points on the line b eps + a fit to
      exactly that line. */
  lemma TransformOfLine(eps: seq<real>, q: seq<real>, a: real, b: real)
    requires |eps| == |q| && !AllEqual(eps)
    requires OnTransformedLine(eps, q, a, b)
    ensures NoZero(q) && LeastSquares(eps, Quotients(eps, q)) == Some(Line(b, a))
  {
    var ratios := Quotients(eps, q);
    assert forall j | 0 <= j < |eps| :: ratios[j] == b * eps[j] + a;
    LeastSquaresExact(eps, ratios, b, a);
  }

  /** `AsymptoteOfSlope` unfolded for a positive slope whose reciprocal is at least the peak. */
  lemma AsymptoteOfLine(b: real, peak: real)
    requires b > 0.0 && Reciprocal(b) >= peak
    ensures AsymptoteOfSlope(b, peak) == Ok(Reciprocal(b))
  {
  }

  // ---------------------------------------------------------------------
  // Dilatancy angle psi
  // ---------------------------------------------------------------------

  /** The dilatant points: those whose volumetric strain is negative. */
  function DilatantIndices(vol: seq<real>): (ix: seq<nat>)
    ensures forall j | 0 <= j < |ix| :: ix[j] < |vol| && vol[ix[j]] < 0.0
    ensures forall i | 0 <= i < |vol| && vol[i] < 0.0 :: i in ix
    ensures |ix| == 0 <==> forall i | 0 <= i < |vol| :: vol[i] >= 0.0
  {
    WhereEmpty(Negative(vol));
    Where(Negative(vol))
  }

  /** The dilatant points keep the order of the test. */
  lemma DilatantAscending(vol: seq<real>)
    ensures Ascending(DilatantIndices(vol))
  {
    WhereAscending(Negative(vol));
  }

  /** The dilatancy rate a = -mean(d eps_v / d eps_1) over successive dilatant
      points; `None` stands for numpy's NaN: fewer than two dilatant points
      (the mean of nothing) or a zero axial increment. */
  function DilatancyRate(axial: seq<real>, vol: seq<real>): (r: Option<real>)
    requires |axial| == |vol|
    ensures var ix := DilatantIndices(vol);
      var dv, de := Diffs(Gather(vol, ix)), Diffs(Gather(axial, ix));
      && (r.Some? <==> |ix| >= 2 && NoZero(de))
      && (r.Some? ==> -r.value == Mean(Quotients(dv, de)))
  {
    var ix := DilatantIndices(vol);
    var dv, de := Diffs(Gather(vol, ix)), Diffs(Gather(axial, ix));
    if |de| == 0 || !NoZero(de) then None
    else Some(-Mean(Quotients(dv, de)))
  }

  /** `calculate_psi`: 0 without dilatant points; otherwise
      psi = asin(a / (2 + a)) for the dilatancy rate a. `None` stands for the
      NaN numpy yields when a is undefined, 2 + a = 0, or a / (2 + a) lies
      outside [-1, 1]. */
  function CalculatePsi(f: Functions, axial: seq<real>, vol: seq<real>): (r: Option<real>)
    requires |axial| == |vol|
    ensures (forall i | 0 <= i < |vol| :: vol[i] >= 0.0) ==> r == Some(0.0)
    ensures (exists i | 0 <= i < |vol| :: vol[i] < 0.0) ==>
      var a := DilatancyRate(axial, vol);
      && (r.Some? <==> a.Some? && a.value != -2.0 && -1.0 <= SinPhiOfSlope(a.value) <= 1.0)
      && (r.Some? ==> r.value == f.asinDeg(SinPhiOfSlope(a.value)))
  {
    if |DilatantIndices(vol)| == 0 then Some(0.0)
    else
      match DilatancyRate(axial, vol)
      case None => None
      case Some(a) =>
        if a == -2.0 then None
        else
          var sinPsi := SinPhiOfSlope(a);
          if -1.0 <= sinPsi <= 1.0 then Some(f.asinDeg(sinPsi)) else None
  }

  /** eps_v = k - D eps_1 at every point. */
  predicate OnDilationLine(ev: seq<real>, ea: seq<real>, D: real, k: real)
    requires |ev| == |ea|
  {
    forall j | 0 <= j < |ev| :: ev[j] == k - D * ea[j]
  }

  /** Consecutive values strictly increase. */
  predicate Increasing(xs: seq<real>) {
    forall j | 0 <= j < |xs| - 1 :: xs[j] < xs[j + 1]
  }

  /** A test that dilates linearly, eps_v = k - D eps_1 at every dilatant
      point, with strictly increasing axial strain and at least two dilatant
      points, has dilatancy rate D; for D > -1 the angle is asin(D / (2 + D)). */
  lemma PsiOfLinearDilation(f: Functions, axial: seq<real>, vol: seq<real>, D: real, k: real)
    requires |axial| == |vol|
    requires forall i, j | 0 <= i < j < |axial| :: axial[i] < axial[j]
    requires forall i | 0 <= i < |vol| && vol[i] < 0.0 :: vol[i] == k - D * axial[i]
    requires exists i, j | 0 <= i < j < |vol| :: vol[i] < 0.0 && vol[j] < 0.0
    requires D > -1.0
    ensures DilatancyRate(axial, vol) == Some(D)
    ensures CalculatePsi(f, axial, vol) == Some(f.asinDeg(SinPhiOfSlope(D)))
  {
    var ix := DilatantIndices(vol);
    var i, j :| 0 <= i < j < |vol| && vol[i] < 0.0 && vol[j] < 0.0;
    TwoDilatantPoints(vol, ix, i, j);
    DilatantAscending(vol);
    DilatantOnLine(axial, vol, ix, D, k);
    RateOfLinearPoints(Gather(vol, ix), Gather(axial, ix), D, k);
    RateIs(axial, vol, D);
    PsiOfRate(f, axial, vol, D);
  }

  /** `DilatancyRate` unfolded: a defined mean increment ratio -D gives the rate D. */
  lemma RateIs(axial: seq<real>, vol: seq<real>, D: real)
    requires |axial| == |vol|
    requires var ix := DilatantIndices(vol);
      var dv, de := Diffs(Gather(vol, ix)), Diffs(Gather(axial, ix));
      |ix| >= 2 && NoZero(de) && Mean(Quotients(dv, de)) == -D
    ensures DilatancyRate(axial, vol) == Some(D)
  {
  }

  /** `CalculatePsi` unfolded for a defined rate above -1. */
  lemma PsiOfRate(f: Functions, axial: seq<real>, vol: seq<real>, D: real)
    requires |axial| == |vol| && |DilatantIndices(vol)| > 0
    requires DilatancyRate(axial, vol) == Some(D) && D > -1.0
    ensures CalculatePsi(f, axial, vol) == Some(f.asinDeg(SinPhiOfSlope(D)))
  {
    SineOfDilatancy(D);
  }

  /** Two distinct dilatant positions make at least two dilatant points. */
  lemma TwoDilatantPoints(vol: seq<real>, ix: seq<nat>, i: nat, j: nat)
    requires i < j < |vol| && i in ix && j in ix
    ensures |ix| >= 2
  {
  }

  /** The dilatant points of a test that dilates linearly, in increasing axial
      strain. */
  lemma DilatantOnLine(axial: seq<real>, vol: seq<real>, ix: seq<nat>, D: real, k: real)
    requires |axial| == |vol|
    requires forall j | 0 <= j < |ix| :: ix[j] < |vol| && vol[ix[j]] < 0.0
    requires Ascending(ix)
    requires forall i, j | 0 <= i < j < |axial| :: axial[i] < axial[j]
    requires forall i | 0 <= i < |vol| && vol[i] < 0.0 :: vol[i] == k - D * axial[i]
    ensures OnDilationLine(Gather(vol, ix), Gather(axial, ix), D, k)
    ensures Increasing(Gather(axial, ix))
  {
    var ev, ea := Gather(vol, ix), Gather(axial, ix);
    forall j | 0 <= j < |ix|
      ensures ev[j] == k - D * ea[j]
    {
      assert vol[ix[j]] < 0.0;
    }
    forall j | 0 <= j < |ix| - 1
      ensures ea[j] < ea[j + 1]
    {
      assert ix[j] < ix[j + 1];
    }
  }

  /** On points eps_v = k - D eps_1 with increasing eps_1 every increment
      ratio is -D, so the dilatancy rate is D. */
  lemma RateOfLinearPoints(ev: seq<real>, ea: seq<real>, D: real, k: real)
    requires |ev| == |ea| >= 2
    requires OnDilationLine(ev, ea, D, k) && Increasing(ea)
    ensures var dv, de := Diffs(ev), Diffs(ea);
      && |de| > 0 && NoZero(de)
      && Mean(Quotients(dv, de)) == -D
  {
    IncrementRatios(ev, ea, D, k);
    ConstantQuotientMean(Diffs(ev), Diffs(ea), -D);
  }

  /** Every quotient us[l] / vs[l] equals v. */
  predicate ConstantQuotients(us: seq<real>, vs: seq<real>, v: real)
    requires |us| == |vs|
  {
    forall l | 0 <= l < |us| :: vs[l] != 0.0 && us[l] / vs[l] == v
  }

  /** On a dilation line every increment ratio of increasing axial strains is -D. */
  lemma IncrementRatios(ev: seq<real>, ea: seq<real>, D: real, k: real)
    requires |ev| == |ea| >= 2
    requires OnDilationLine(ev, ea, D, k) && Increasing(ea)
    ensures ConstantQuotients(Diffs(ev), Diffs(ea), -D)
  {
    var dv, de := Diffs(ev), Diffs(ea);
    forall l | 0 <= l < |de|
      ensures de[l] != 0.0 && dv[l] / de[l] == -D
    {
      IncrementRatioAt(ev, ea, D, k, l);
    }
  }

  /** Per-index step of `IncrementRatios`. */
  lemma IncrementRatioAt(ev: seq<real>, ea: seq<real>, D: real, k: real, l: nat)
    requires |ev| == |ea| && l + 1 < |ev|
    requires OnDilationLine(ev, ea, D, k) && Increasing(ea)
    ensures var dv, de := Diffs(ev), Diffs(ea);
      de[l] != 0.0 && dv[l] / de[l] == -D
  {
    assert ev[l] == k - D * ea[l] && ev[l + 1] == k - D * ea[l + 1];
    assert ea[l] < ea[l + 1];
    LinearIncrement(ev[l], ev[l + 1], ea[l], ea[l + 1], D, k);
  }

  /** The mean of constant increment ratios is that constant. */
  lemma ConstantQuotientMean(us: seq<real>, vs: seq<real>, v: real)
    requires |us| == |vs| > 0
    requires ConstantQuotients(us, vs, v)
    ensures NoZero(vs) && Mean(Quotients(us, vs)) == v
  {
    var qs := Quotients(us, vs);
    assert forall l | 0 <= l < |qs| :: qs[l] == v;
    MeanOfConstant(qs, v);
  }

  /** The slope between two points of the dilation line is -D; the division step, isolated. */
  lemma LinearIncrement(v0: real, v1: real, a0: real, a1: real, D: real, k: real)
    requires a0 < a1 && v0 == k - D * a0 && v1 == k - D * a1
    ensures a1 - a0 > 0.0 && (v1 - v0) / (a1 - a0) == -D
  {
    assert v1 - v0 == -D * (a1 - a0);
  }

  /** For a rate above -1, D / (2 + D) is a valid sine, so the arcsine is defined. */
  lemma SineOfDilatancy(D: real)
    requires D > -1.0
    ensures D != -2.0 && -1.0 < SinPhiOfSlope(D) < 1.0
  {
    UnitQuotient(D, 2.0 + D);
  }

  /** A quotient p / d with -d < p < d lies strictly inside (-1, 1). */
  lemma UnitQuotient(p: real, d: real)
    requires d > 0.0 && -d < p < d
    ensures -1.0 < p / d < 1.0
  {
    var q := p / d;
    assert q * d == p;
    if q <= -1.0 {
      ProductSign(-1.0 - q, d);
      assert false;
    }
    if q >= 1.0 {
      ProductSign(q - 1.0, d);
      assert false;
    }
  }

  // ---------------------------------------------------------------------
  // Stiffness: the power law E50 = E50ref ((c cos phi + sigma3 sin phi) /
  // (c cos phi + p_ref sin phi))^m
  // ---------------------------------------------------------------------

  /** The stress level c cos phi + sigma sin phi of the power law. */
  function StressLevel(f: Functions, c: real, phi: real, sigma: real): real {
    c * f.cosDeg(phi) + sigma * f.sinDeg(phi)
  }

  /** The stress level at sigma relative to that at p_ref. */
  function StressRatio(f: Functions, c: real, phi: real, sigma: real, pRef: real): (q: real)
    requires StressLevel(f, c, phi, pRef) != 0.0
    ensures q * StressLevel(f, c, phi, pRef) == StressLevel(f, c, phi, sigma)
  {
    StressLevel(f, c, phi, sigma) / StressLevel(f, c, phi, pRef)
  }

  /** The stress levels of the confining pressures relative to that of p_ref. */
  function PressureRatios(f: Functions, pressures: seq<real>, c: real, phi: real, pRef: real): (rs: seq<real>)
    requires StressLevel(f, c, phi, pRef) != 0.0
    ensures |rs| == |pressures|
    ensures forall i | 0 <= i < |pressures| :: rs[i] == StressRatio(f, c, phi, pressures[i], pRef)
  {
    seq(|pressures|, i requires 0 <= i < |pressures| => StressRatio(f, c, phi, pressures[i], pRef))
  }

  predicate AllPositive(xs: seq<real>) {
    forall i | 0 <= i < |xs| :: xs[i] > 0.0
  }

  /** Element-wise natural logarithms, as `np.log`. */
  function Logs(f: Functions, xs: seq<real>): (ys: seq<real>)
    ensures |ys| == |xs|
    ensures forall i | 0 <= i < |xs| :: ys[i] == f.ln(xs[i])
  {
    seq(|xs|, i requires 0 <= i < |xs| => f.ln(xs[i]))
  }

  /** The exponent m and the reference modulus E50ref of the power law. */
  datatype StiffnessLaw = StiffnessLaw(m: real, e50Ref: real)

  /** `calculate_m`: regress ln E50 on ln of the stress-level ratio; the
      slope is m and exp(intercept) is E50ref. A zero reference level and a
      logarithm of a non-positive value are errors, and so is a degenerate fit. */
  function CalculateM(f: Functions, pressures: seq<real>, e50s: seq<real>, c: real, phi: real, pRef: real)
    : (r: Result<StiffnessLaw>)
    requires |pressures| == |e50s|
    ensures StressLevel(f, c, phi, pRef) == 0.0 ==> r == Err(DivisionByZero)
    ensures r.Ok? ==>
      && StressLevel(f, c, phi, pRef) != 0.0
      && var ratios := PressureRatios(f, pressures, c, phi, pRef);
      && AllPositive(ratios) && AllPositive(e50s)
      && var fit := LeastSquares(Logs(f, ratios), Logs(f, e50s));
      && fit.Some?
      && r.value == StiffnessLaw(fit.value.slope, f.exp(fit.value.intercept))
  {
    if StressLevel(f, c, phi, pRef) == 0.0 then Err(DivisionByZero)
    else
      var ratios := PressureRatios(f, pressures, c, phi, pRef);
      if !AllPositive(ratios) || !AllPositive(e50s) then Err(OutOfDomain)
      else
        match LeastSquares(Logs(f, ratios), Logs(f, e50s))
        case None => Err(DegenerateFit)
        case Some(line) => Ok(StiffnessLaw(line.slope, f.exp(line.intercept)))
  }

  /** `calculate_E50`: E50ref times the stress-level ratio raised to m. A zero
      reference level is an error. */
  function CalculateE50(f: Functions, e50Ref: real, c: real, phi: real, sigma3: real, m: real, pRef: real)
    : (r: Result<real>)
    ensures r.Ok? <==> StressLevel(f, c, phi, pRef) != 0.0
  {
    if StressLevel(f, c, phi, pRef) == 0.0 then Err(DivisionByZero)
    else Ok(e50Ref * f.pow(StressRatio(f, c, phi, sigma3, pRef), m))
  }

  /** At the reference pressure the stress-level ratio is 1, 1^m = 1, and
      E50 is E50ref itself. */
  lemma E50AtReferencePressure(f: Functions, e50Ref: real, c: real, phi: real, m: real, pRef: real)
    requires LogLaws(f) && StressLevel(f, c, phi, pRef) != 0.0
    ensures CalculateE50(f, e50Ref, c, phi, pRef, m, pRef) == Ok(e50Ref)
  {
    SelfQuotient(StressLevel(f, c, phi, pRef));
    assert StressRatio(f, c, phi, pRef, pRef) == 1.0;
    PowOfOne(f, m);
    E50Is(f, e50Ref, c, phi, pRef, m, pRef);
    assert f.pow(StressRatio(f, c, phi, pRef, pRef), m) == 1.0;
    assert e50Ref * f.pow(StressRatio(f, c, phi, pRef, pRef), m) == e50Ref;
  }

  /** `CalculateE50` with a non-zero reference level, unfolded. */
  lemma E50Is(f: Functions, e50Ref: real, c: real, phi: real, sigma3: real, m: real, pRef: real)
    requires StressLevel(f, c, phi, pRef) != 0.0
    ensures CalculateE50(f, e50Ref, c, phi, sigma3, m, pRef)
         == Ok(e50Ref * f.pow(StressRatio(f, c, phi, sigma3, pRef), m))
  {
    var r := CalculateE50(f, e50Ref, c, phi, sigma3, m, pRef);
    assert r.Ok?;
    assert r.value == e50Ref * f.pow(StressRatio(f, c, phi, sigma3, pRef), m);
  }

  /** d / d == 1 for non-zero d; the stress-level ratio at the reference pressure. */
  lemma SelfQuotient(d: real)
    requires d != 0.0
    ensures d / d == 1.0
  {
  }

  /** 1^m = 1 follows from the logarithm laws: ln 1 = 0, ln(1^m) = m ln 1 = 0,
      and ln is injective. */
  lemma PowOfOne(f: Functions, m: real)
    requires LogLaws(f)
    ensures f.pow(1.0, m) == 1.0
  {
    assert Product(1.0, 1.0) == 1.0;
    assert f.ln(Product(1.0, 1.0)) == f.ln(1.0) + f.ln(1.0);
    var p := f.pow(1.0, m);
    assert p > 0.0 && f.ln(p) == m * f.ln(1.0);
  }

  /** The stiffness fit inverts the power law: moduli generated by
      `CalculateE50` from (E50ref, m), E50ref > 0, at confining pressures that
      are not all equal (with sin phi != 0 and positive stress-level ratios)
      give back exactly that m and E50ref. */
  lemma StiffnessFitRecoversPowerLaw(f: Functions, pressures: seq<real>, e50s: seq<real>,
                                     c: real, phi: real, pRef: real, m: real, E: real)
    requires LogLaws(f)
    requires |pressures| == |e50s| && !AllEqual(pressures)
    requires StressLevel(f, c, phi, pRef) != 0.0 && f.sinDeg(phi) != 0.0
    requires AllPositive(PressureRatios(f, pressures, c, phi, pRef))
    requires E > 0.0
    requires forall i | 0 <= i < |pressures| :: CalculateE50(f, E, c, phi, pressures[i], m, pRef) == Ok(e50s[i])
    ensures CalculateM(f, pressures, e50s, c, phi, pRef) == Ok(StiffnessLaw(m, E))
  {
    var ratios := PressureRatios(f, pressures, c, phi, pRef);
    PowerLawPoints(f, pressures, e50s, c, phi, pRef, m, E);
    DistinctRatios(f, pressures, c, phi, pRef);
    LogLinePoints(f, ratios, e50s, m, E);
    DistinctLogs(f, ratios);
    FitOfLogLine(Logs(f, ratios), Logs(f, e50s), m, f.ln(E));
    CalculateMIs(f, pressures, e50s, c, phi, pRef, Line(m, f.ln(E)));
    ExpOfLog(f, E);
  }

  /** exp(ln E) == E for positive E, from `LogLaws`: the intercept of the log fit gives back E50ref. */
  lemma ExpOfLog(f: Functions, E: real)
    requires LogLaws(f) && E > 0.0
    ensures f.exp(f.ln(E)) == E
  {
  }

  /** `CalculateM` on admissible data, unfolded. */
  lemma CalculateMIs(f: Functions, pressures: seq<real>, e50s: seq<real>, c: real, phi: real, pRef: real, line: Line)
    requires |pressures| == |e50s| && StressLevel(f, c, phi, pRef) != 0.0
    requires var ratios := PressureRatios(f, pressures, c, phi, pRef);
      && AllPositive(ratios) && AllPositive(e50s)
      && LeastSquares(Logs(f, ratios), Logs(f, e50s)) == Some(line)
    ensures CalculateM(f, pressures, e50s, c, phi, pRef) == Ok(StiffnessLaw(line.slope, f.exp(line.intercept)))
  {
  }

  /** e50s[i] = E ratio_i^m at every point. */
  predicate OnPowerLaw(f: Functions, ratios: seq<real>, e50s: seq<real>, m: real, E: real)
    requires |ratios| == |e50s|
  {
    forall i | 0 <= i < |ratios| :: e50s[i] == E * f.pow(ratios[i], m)
  }

  /** ys[i] = m xs[i] + b at every point. */
  predicate OnLogLine(xs: seq<real>, ys: seq<real>, m: real, b: real)
    requires |xs| == |ys|
  {
    forall i | 0 <= i < |xs| :: ys[i] == m * xs[i] + b
  }

  /** Moduli computed by `CalculateE50` lie on the power law over the stress-level ratios. */
  lemma PowerLawPoints(f: Functions, pressures: seq<real>, e50s: seq<real>,
                       c: real, phi: real, pRef: real, m: real, E: real)
    requires |pressures| == |e50s| && StressLevel(f, c, phi, pRef) != 0.0
    requires forall i | 0 <= i < |pressures| :: CalculateE50(f, E, c, phi, pressures[i], m, pRef) == Ok(e50s[i])
    ensures OnPowerLaw(f, PressureRatios(f, pressures, c, phi, pRef), e50s, m, E)
  {
    var ratios := PressureRatios(f, pressures, c, phi, pRef);
    forall i | 0 <= i < |pressures|
      ensures e50s[i] == E * f.pow(ratios[i], m)
    {
      E50Is(f, E, c, phi, pressures[i], m, pRef);
    }
  }

  /** Distinct confining pressures have distinct stress-level ratios when
      sin phi != 0, so the ratios are not all equal. */
  lemma DistinctRatios(f: Functions, pressures: seq<real>, c: real, phi: real, pRef: real)
    requires !AllEqual(pressures)
    requires StressLevel(f, c, phi, pRef) != 0.0 && f.sinDeg(phi) != 0.0
    ensures !AllEqual(PressureRatios(f, pressures, c, phi, pRef))
  {
    var ratios := PressureRatios(f, pressures, c, phi, pRef);
    var i, j :| 0 <= i < |pressures| && 0 <= j < |pressures| && pressures[i] != pressures[j];
    LevelsDiffer(f, c, phi, pressures[i], pressures[j], pRef);
    assert ratios[i] != ratios[j];
  }

  /** Distinct confining pressures give distinct stress-level ratios when sin phi != 0, so the log fit is not degenerate. */
  lemma LevelsDiffer(f: Functions, c: real, phi: real, p1: real, p2: real, pRef: real)
    requires f.sinDeg(phi) != 0.0 && p1 != p2 && StressLevel(f, c, phi, pRef) != 0.0
    ensures StressRatio(f, c, phi, p1, pRef) != StressRatio(f, c, phi, p2, pRef)
  {
    var q1, q2 := StressRatio(f, c, phi, p1, pRef), StressRatio(f, c, phi, p2, pRef);
    LevelDifference(f.cosDeg(phi), f.sinDeg(phi), c, p1, p2, StressLevel(f, c, phi, pRef), q1, q2);
  }

  /** The algebra of `LevelsDiffer` over plain reals. */
  lemma LevelDifference(cs: real, sn: real, c: real, p1: real, p2: real, den: real, q1: real, q2: real)
    requires sn != 0.0 && p1 != p2
    requires q1 * den == c * cs + p1 * sn && q2 * den == c * cs + p2 * sn
    ensures q1 != q2
  {
    ProductSign(p1 - p2, sn);
    assert (c * cs + p1 * sn) - (c * cs + p2 * sn) == Product(p1 - p2, sn);
  }

  /** On a power law the logarithms lie on the line ln E50 = m ln ratio + ln E. */
  lemma LogLinePoints(f: Functions, ratios: seq<real>, e50s: seq<real>, m: real, E: real)
    requires LogLaws(f) && |ratios| == |e50s|
    requires AllPositive(ratios) && E > 0.0
    requires OnPowerLaw(f, ratios, e50s, m, E)
    ensures AllPositive(e50s)
    ensures OnLogLine(Logs(f, ratios), Logs(f, e50s), m, f.ln(E))
  {
    PowerLawPositive(f, ratios, e50s, m, E);
    LogsOnLine(f, ratios, e50s, m, E);
  }

  /** Positive ratios and a positive E50ref give positive moduli, so their logarithms are defined. */
  lemma PowerLawPositive(f: Functions, ratios: seq<real>, e50s: seq<real>, m: real, E: real)
    requires LogLaws(f) && |ratios| == |e50s|
    requires AllPositive(ratios) && E > 0.0
    requires OnPowerLaw(f, ratios, e50s, m, E)
    ensures AllPositive(e50s)
  {
    forall i | 0 <= i < |ratios|
      ensures e50s[i] > 0.0
    {
      LogLineAt(f, ratios, e50s, m, E, i);
    }
  }

  /** Taking logarithms turns the power law into a line of slope m and intercept ln E50ref. */
  lemma LogsOnLine(f: Functions, ratios: seq<real>, e50s: seq<real>, m: real, E: real)
    requires LogLaws(f) && |ratios| == |e50s|
    requires AllPositive(ratios) && E > 0.0
    requires OnPowerLaw(f, ratios, e50s, m, E)
    ensures OnLogLine(Logs(f, ratios), Logs(f, e50s), m, f.ln(E))
  {
    forall i | 0 <= i < |ratios|
      ensures Logs(f, e50s)[i] == m * Logs(f, ratios)[i] + f.ln(E)
    {
      LogLineAt(f, ratios, e50s, m, E, i);
    }
  }

  /** Per-index step of `LogsOnLine`. */
  lemma LogLineAt(f: Functions, ratios: seq<real>, e50s: seq<real>, m: real, E: real, i: nat)
    requires LogLaws(f) && |ratios| == |e50s| && i < |ratios|
    requires AllPositive(ratios) && E > 0.0
    requires OnPowerLaw(f, ratios, e50s, m, E)
    ensures e50s[i] > 0.0 && Logs(f, e50s)[i] == m * Logs(f, ratios)[i] + f.ln(E)
  {
    var r, e := ratios[i], e50s[i];
    assert r > 0.0;
    assert e == E * f.pow(r, m);
    LogOfPowerPoint(f, r, e, m, E);
  }

  /** ln(E r^m) = m ln r + ln E for r, E > 0. */
  lemma LogOfPowerPoint(f: Functions, r: real, e: real, m: real, E: real)
    requires LogLaws(f) && r > 0.0 && E > 0.0 && e == E * f.pow(r, m)
    ensures e > 0.0 && f.ln(e) == m * f.ln(r) + f.ln(E)
  {
    var p := f.pow(r, m);
    assert p > 0.0 && f.ln(p) == m * f.ln(r);
    ProductSign(E, p);
    assert e == Product(E, p);
    assert f.ln(Product(E, p)) == f.ln(E) + f.ln(p);
  }

  /** ln is injective on positive values, so ratios that are not all equal
      have logarithms that are not all equal. */
  lemma DistinctLogs(f: Functions, ratios: seq<real>)
    requires LogLaws(f) && AllPositive(ratios) && !AllEqual(ratios)
    ensures !AllEqual(Logs(f, ratios))
  {
    var xs := Logs(f, ratios);
    var i, j :| 0 <= i < |ratios| && 0 <= j < |ratios| && ratios[i] != ratios[j];
    if ratios[i] < ratios[j] {
      assert f.ln(ratios[i]) < f.ln(ratios[j]);
    } else {
      assert f.ln(ratios[j]) < f.ln(ratios[i]);
    }
    assert xs[i] != xs[j];
  }

  /** The least-squares fit of exact points on the log line is that line (`LeastSquaresExact` on boxed hypotheses). */
  lemma FitOfLogLine(xs: seq<real>, ys: seq<real>, m: real, b: real)
    requires |xs| == |ys| && !AllEqual(xs) && OnLogLine(xs, ys, m, b)
    ensures LeastSquares(xs, ys) == Some(Line(m, b))
  {
    LeastSquaresExact(xs, ys, m, b);
  }

  // ---------------------------------------------------------------------
  // The hyperbolic stress-strain curve
  // ---------------------------------------------------------------------

  /** `np.maximum(eps, 1e-10)`: strains below the floor are raised to it. */
  function Clamp(eps: real): (e: real)
    ensures e >= StrainFloor && e >= eps
    ensures eps >= StrainFloor ==> e == eps
  {
    if eps < StrainFloor then StrainFloor else eps
  }

  /** The hyperbola can be evaluated at strain eps: no denominator vanishes. */
  predicate Evaluable(qa: real, e50: real, eps: real) {
    2.0 * e50 * eps != 0.0 && 1.0 + qa / (2.0 * e50 * eps) != 0.0
  }

  /** The deviatoric stress qa / (1 + qa / (2 E50 eps)) of the hyperbolic law. */
  function HyperbolicStress(qa: real, e50: real, eps: real): real
    requires Evaluable(qa, e50, eps)
  {
    qa / (1.0 + qa / (2.0 * e50 * eps))
  }

  /** The model stress at every strain of a grid, each strain first clamped to
      the floor. A strain where a denominator vanishes is an error. */
  function HyperbolicCurve(qa: real, e50: real, strains: seq<real>): (r: Result<seq<real>>)
    ensures r.Ok? <==> forall i | 0 <= i < |strains| :: Evaluable(qa, e50, Clamp(strains[i]))
    ensures r.Ok? ==> |r.value| == |strains|
    ensures r.Ok? ==> forall i | 0 <= i < |strains| :: r.value[i] == HyperbolicStress(qa, e50, Clamp(strains[i]))
    ensures r.Ok? ==> forall i, j | 0 <= i < |strains| && 0 <= j < |strains| ::
      strains[i] <= StrainFloor && strains[j] <= StrainFloor ==> r.value[i] == r.value[j]
  {
    if forall i | 0 <= i < |strains| :: Evaluable(qa, e50, Clamp(strains[i])) then
      Ok(seq(|strains|, i requires 0 <= i < |strains| => HyperbolicStress(qa, e50, Clamp(strains[i]))))
    else Err(DivisionByZero)
  }

  /** With qa > 0 and E50 > 0 every strain can be evaluated and every model
      stress lies strictly between 0 and qa. */
  lemma HyperbolicCurveBounded(qa: real, e50: real, strains: seq<real>)
    requires qa > 0.0 && e50 > 0.0
    ensures HyperbolicCurve(qa, e50, strains).Ok?
    ensures forall i | 0 <= i < |strains| :: 0.0 < HyperbolicCurve(qa, e50, strains).value[i] < qa
  {
    forall i | 0 <= i < |strains|
      ensures Evaluable(qa, e50, Clamp(strains[i]))
      ensures 0.0 < HyperbolicStress(qa, e50, Clamp(strains[i])) < qa
    {
      StressBounds(qa, e50, Clamp(strains[i]));
    }
  }

  /** With qa > 0 and E50 > 0 the model stress never decreases as the strain
      grows. */
  lemma HyperbolicCurveMonotone(qa: real, e50: real, strains: seq<real>)
    requires qa > 0.0 && e50 > 0.0
    ensures HyperbolicCurve(qa, e50, strains).Ok?
    ensures forall i, j | 0 <= i < |strains| && 0 <= j < |strains| && strains[i] <= strains[j] ::
      HyperbolicCurve(qa, e50, strains).value[i] <= HyperbolicCurve(qa, e50, strains).value[j]
  {
    HyperbolicCurveBounded(qa, e50, strains);
    forall i, j | 0 <= i < |strains| && 0 <= j < |strains| && strains[i] <= strains[j]
      ensures HyperbolicStress(qa, e50, Clamp(strains[i])) <= HyperbolicStress(qa, e50, Clamp(strains[j]))
    {
      StressMonotone(qa, e50, Clamp(strains[i]), Clamp(strains[j]));
    }
  }

  /** At a positive strain the hyperbola can be evaluated and its value lies
      in (0, qa). */
  lemma StressBounds(qa: real, e50: real, eps: real)
    requires qa > 0.0 && e50 > 0.0 && eps > 0.0
    ensures Evaluable(qa, e50, eps)
    ensures 0.0 < HyperbolicStress(qa, e50, eps) < qa
  {
    var d := 2.0 * e50 * eps;
    ProductSign(2.0 * e50, eps);
    assert d == Product(2.0 * e50, eps);
    var t := qa / d;
    QuotientSign(qa, d);
    QuotientBelow(qa, 1.0 + t);
  }

  /** A positive quotient of positive values. */
  lemma QuotientSign(a: real, d: real)
    requires a > 0.0 && d > 0.0
    ensures a / d > 0.0
  {
  }

  /** Dividing a positive value by more than 1 leaves it positive and makes
      it smaller. */
  lemma QuotientBelow(a: real, d: real)
    requires a > 0.0 && d > 1.0
    ensures 0.0 < a / d < a
  {
    var s := a / d;
    assert s * d == a;
    ProductSign(s, d - 1.0);
    assert a - s == Product(s, d - 1.0);
  }

  /** The hyperbola is non-decreasing in the strain on positive strains. */
  lemma StressMonotone(qa: real, e50: real, e1: real, e2: real)
    requires qa > 0.0 && e50 > 0.0 && 0.0 < e1 <= e2
    ensures Evaluable(qa, e50, e1) && Evaluable(qa, e50, e2)
    ensures HyperbolicStress(qa, e50, e1) <= HyperbolicStress(qa, e50, e2)
  {
    var d1, t1 := StressAt(qa, e50, e1);
    var d2, t2 := StressAt(qa, e50, e2);
    ProductSign(2.0 * e50, e2 - e1);
    assert d2 - d1 == Product(2.0 * e50, e2 - e1);
    QuotientAntitone(qa, d1, d2);
    QuotientAntitone(qa, 1.0 + t2, 1.0 + t1);
  }

  /** The hyperbola at a positive strain, unfolded: d = 2 E50 eps > 0,
      t = qa / d > 0 and the stress is qa / (1 + t). */
  lemma StressAt(qa: real, e50: real, eps: real) returns (d: real, t: real)
    requires qa > 0.0 && e50 > 0.0 && eps > 0.0
    ensures d == 2.0 * e50 * eps && d > 0.0 && t == qa / d && t > 0.0
    ensures Evaluable(qa, e50, eps) && HyperbolicStress(qa, e50, eps) == qa / (1.0 + t)
  {
    d := 2.0 * e50 * eps;
    ProductSign(2.0 * e50, eps);
    assert d == Product(2.0 * e50, eps);
    t := qa / d;
    QuotientSign(qa, d);
  }

  /** a / x >= a / y for a > 0 and 0 < x <= y. */
  lemma QuotientAntitone(a: real, x: real, y: real)
    requires a > 0.0 && 0.0 < x <= y
    ensures a / x >= a / y
  {
    var u, v := a / x, a / y;
    assert u * x == a && v * y == a;
    ProductSign(v, y - x);
    assert v * y - v * x == Product(v, y - x);
    ProductSign(u - v, x);
    assert u * x - v * x == Product(u - v, x);
  }

  /** The hyperbolic transform of the model: at a strain eps > 0 the stress
      sigma is non-zero and eps / sigma = eps / qa + 1 / (2 E50), the line
      `calculate_qa` fits. */
  lemma HyperbolaTransform(qa: real, e50: real, eps: real)
    requires qa > 0.0 && e50 > 0.0 && eps > 0.0
    ensures Evaluable(qa, e50, eps) && HyperbolicStress(qa, e50, eps) != 0.0
    ensures eps / HyperbolicStress(qa, e50, eps) == Reciprocal(qa) * eps + Reciprocal(2.0 * e50)
  {
    StressBounds(qa, e50, eps);
    var k := 2.0 * e50;
    var t := qa / (k * eps);
    var s := HyperbolicStress(qa, e50, eps);
    assert s == qa / (1.0 + t);
    TransformIdentity(qa, k, eps, t, s, eps / s, Reciprocal(qa), Reciprocal(k));
  }

  /** The algebra behind `HyperbolaTransform`, over plain values:
      t = qa / (k eps), s = qa / (1 + t), w = eps / s, r = 1 / qa, h = 1 / k
      give w = r eps + h. */
  lemma TransformIdentity(qa: real, k: real, eps: real, t: real, s: real, w: real, r: real, h: real)
    requires qa > 0.0 && k > 0.0 && eps > 0.0 && t > 0.0 && s > 0.0
    requires t * (k * eps) == qa && s * (1.0 + t) == qa && w * s == eps
    requires r * qa == 1.0 && h * k == 1.0
    ensures w == r * eps + h
  {
    assert (eps * t) * k == qa;
    assert (h * qa) * k == qa;
    Cancel(eps * t, h * qa, k);
    assert (r * eps + h) * qa == eps * (1.0 + t);
    assert ((r * eps + h) * s) * (1.0 + t) == eps * (1.0 + t);
    Cancel((r * eps + h) * s, eps, 1.0 + t);
    Cancel(w, r * eps + h, s);
  }

  /** A non-zero factor cancels. */
  lemma Cancel(a: real, b: real, c: real)
    requires c != 0.0 && a * c == b * c
    ensures a == b
  {
    ProductSign(a - b, c);
    assert Product(a - b, c) == a * c - b * c;
  }

  /** 1 / (1 / x) = x. */
  lemma ReciprocalInvolutive(x: real)
    requires x > 0.0
    ensures Reciprocal(Reciprocal(x)) == x
  {
    var y := Reciprocal(x);
    assert y * x == 1.0;
    Cancel(Reciprocal(y), x, y);
  }

  /** A model curve over strains at or above the floor, with qa > 0 and
      E50 > 0, lies on the transformed line with intercept 1 / (2 E50) and
      slope 1 / qa. */
  lemma CurveOnTransformedLine(qa: real, e50: real, strains: seq<real>)
    requires qa > 0.0 && e50 > 0.0
    requires forall i | 0 <= i < |strains| :: strains[i] >= StrainFloor
    ensures HyperbolicCurve(qa, e50, strains).Ok?
    ensures OnTransformedLine(strains, HyperbolicCurve(qa, e50, strains).value, Reciprocal(2.0 * e50), Reciprocal(qa))
  {
    HyperbolicCurveBounded(qa, e50, strains);
    forall i | 0 <= i < |strains|
      ensures HyperbolicCurve(qa, e50, strains).value[i] == HyperbolicStress(qa, e50, strains[i])
      ensures HyperbolicStress(qa, e50, strains[i]) != 0.0
      ensures strains[i] / HyperbolicStress(qa, e50, strains[i])
           == Reciprocal(qa) * strains[i] + Reciprocal(2.0 * e50)
    {
      HyperbolaTransform(qa, e50, strains[i]);
    }
  }

  /** The estimator inverts the forward model: the qa that `calculate_qa`
      recovers from a model curve (strains at or above the floor, fitted
      strains not all equal) is the qa the curve was built with. */
  lemma ModelCurveRoundTrip(qa: real, e50: real, strains: seq<real>)
    requires qa > 0.0 && e50 > 0.0 && |strains| > 0
    requires forall i | 0 <= i < |strains| :: strains[i] >= StrainFloor
    requires HyperbolicCurve(qa, e50, strains).Ok?
    requires var curve := HyperbolicCurve(qa, e50, strains).value;
      |curve| == |strains| && !AllEqual(Gather(strains, QaFitIndices(curve)))
    ensures CalculateQa(strains, HyperbolicCurve(qa, e50, strains).value) == Ok(qa)
  {
    var curve := HyperbolicCurve(qa, e50, strains).value;
    CurveOnTransformedLine(qa, e50, strains);
    HyperbolicCurveBounded(qa, e50, strains);
    MaxIsLargest(curve);
    ReciprocalInvolutive(qa);
    QaRecoversHyperbola(strains, curve, Reciprocal(2.0 * e50), Reciprocal(qa));
  }

  /** `model_hyperbolic_curve`: the failure stress qf at sigma3 from the
      strength parameters, the asymptote qa = qf / Rf, the modulus E50 at
      sigma3 from the power law, then the hyperbola at every strain of the
      grid. A zero Rf is an error, as are the errors of `calculate_qf`,
      `calculate_E50` and the hyperbola itself, in that order. */
  function ModelHyperbolicCurve(f: Functions, strains: seq<real>, sigma3: real, e50Ref: real,
                                c: real, phi: real, m: real, rf: real, pRef: real): (r: Result<seq<real>>)
    ensures CalculateQf(f, Some(sigma3), Some(c), Some(phi)).Err? ==>
      r == Err(CalculateQf(f, Some(sigma3), Some(c), Some(phi)).error)
    ensures CalculateQf(f, Some(sigma3), Some(c), Some(phi)).Ok? && rf == 0.0 ==> r == Err(DivisionByZero)
    ensures r.Ok? ==>
      && rf != 0.0
      && CalculateQf(f, Some(sigma3), Some(c), Some(phi)).Ok?
      && CalculateE50(f, e50Ref, c, phi, sigma3, m, pRef).Ok?
      && r == HyperbolicCurve(CalculateQf(f, Some(sigma3), Some(c), Some(phi)).value / rf,
                              CalculateE50(f, e50Ref, c, phi, sigma3, m, pRef).value, strains)
      && |r.value| == |strains|
  {
    var qf :- CalculateQf(f, Some(sigma3), Some(c), Some(phi));
    if rf == 0.0 then Err(DivisionByZero)
    else
      var qa := qf / rf;
      var e50 :- CalculateE50(f, e50Ref, c, phi, sigma3, m, pRef);
      HyperbolicCurve(qa, e50, strains)
  }

  /** With qf > 0, Rf > 0 and E50 > 0 at sigma3, the model curve exists, has
      one stress per strain, stays strictly between 0 and qa = qf / Rf, never
      decreases as the strain grows, and gives one value to every strain at or
      below the floor. */
  lemma ModelCurveShape(f: Functions, strains: seq<real>, sigma3: real, e50Ref: real,
                        c: real, phi: real, m: real, rf: real, pRef: real, qf: real, e50: real)
    requires CalculateQf(f, Some(sigma3), Some(c), Some(phi)) == Ok(qf) && qf > 0.0 && rf > 0.0
    requires CalculateE50(f, e50Ref, c, phi, sigma3, m, pRef) == Ok(e50) && e50 > 0.0
    ensures var r := ModelHyperbolicCurve(f, strains, sigma3, e50Ref, c, phi, m, rf, pRef);
      && r.Ok? && |r.value| == |strains|
      && (forall i | 0 <= i < |strains| :: 0.0 < r.value[i] < qf / rf)
      && (forall i, j | 0 <= i < |strains| && 0 <= j < |strains| && strains[i] <= strains[j] ::
            r.value[i] <= r.value[j])
      && (forall i, j | 0 <= i < |strains| && 0 <= j < |strains| ::
            strains[i] <= StrainFloor && strains[j] <= StrainFloor ==> r.value[i] == r.value[j])
  {
    QuotientSign(qf, rf);
    HyperbolicCurveBounded(qf / rf, e50, strains);
    HyperbolicCurveMonotone(qf / rf, e50, strains);
  }

  /** `calculate_Eur_ref`: the unloading-reloading modulus defaults to three
      times E50ref. */
  function CalculateEurRef(e50Ref: real): real {
    3.0 * e50Ref
  }

  /** `calculate_Eoed_ref`: the oedometric modulus defaults to E50ref. */
  function CalculateEoedRef(e50Ref: real): real {
    e50Ref
  }

  /** `calculate_vur`: the unloading-reloading Poisson ratio is fixed. */
  function CalculateVur(): real {
    UnloadingPoissonRatio
  }
}
