/** The calibration run of the Hardening Soil calibrator: from a set of
    triaxial tests to the model parameters and a modelled stress-strain curve
    per test.

    The run has three passes over the tests, in the order the tests are
    given: pass one collects each confining pressure with its peak deviatoric
    stress and fits the strength envelope (phi, c); pass two derives the
    per-test quantities (qf, E50ref, qa, Rf, Eur, Eoed, psi) with that one
    envelope; after the global parameters are aggregated, pass three builds
    the model curve of every test on a 100-point strain grid. The first
    estimator error stops the run and nothing is produced, as the
    `except ValueError` handler of the script does. */
module Calibration {
  import opened Outcomes
  import opened Transcendental
  import opened Statistics
  import opened Arrays
  import opened HardeningSoil

  /** The number of points of the model strain grid. */
  const GridPoints: nat := 100

  /** One triaxial test: its confining pressure sigma3 (kPa) and the recorded
      axial strain, deviatoric stress and volumetric strain series. */
  datatype TriaxialTest = TriaxialTest(cp: real, strain: seq<real>, stress: seq<real>, volStrain: seq<real>)

  /** The three series of a test are columns of one table: equally long. */
  predicate WellFormed(t: TriaxialTest) {
    |t.strain| == |t.stress| && |t.stress| == |t.volStrain|
  }

  predicate AllWellFormed(tests: seq<TriaxialTest>) {
    forall i | 0 <= i < |tests| :: WellFormed(tests[i])
  }

  /** What pass two records for one test. `rf` is `None` when qa is 0. */
  datatype TestResult = TestResult(
    qf: real, e50Ref: real, qa: real, rf: Option<real>,
    eurRef: real, eoedRef: real, psi: Option<real>)

  /** The global parameters of the Hardening Soil model. `psi` is `None`
      when no test has a defined dilatancy angle (numpy's NaN). */
  datatype Parameters = Parameters(
    e50Ref: real, eurRef: real, eoedRef: real, c: real, phi: real,
    psi: Option<real>, m: real, vur: real, pRef: real, k0: real, rf: real)

  /** A model curve: the strain grid and the modelled stress at each point. */
  datatype ModelCurve = ModelCurve(strains: seq<real>, stresses: seq<real>)

  /** The outcome of a run: the global parameters, the per-test results, the
      E50ref fitted by the stiffness regression (which drives the model
      curves), and one model curve per test. */
  datatype Outcome = Outcome(
    params: Parameters, results: seq<TestResult>, e50Fitted: real, curves: seq<ModelCurve>)

  // ---------------------------------------------------------------------
  // Pass one: confining pressures and peak stresses
  // ---------------------------------------------------------------------

  /** The confining pressures, in test order. */
  function Pressures(tests: seq<TriaxialTest>): (ps: seq<real>)
    ensures |ps| == |tests|
    ensures forall i | 0 <= i < |tests| :: ps[i] == tests[i].cp
  {
    seq(|tests|, i requires 0 <= i < |tests| => tests[i].cp)
  }

  /** The peak deviatoric stress of every test, as `np.max(stress)`; a test
      with an empty stress series is an error. */
  function PeakStresses(tests: seq<TriaxialTest>): (r: Result<seq<real>>)
    ensures r.Ok? <==> forall i | 0 <= i < |tests| :: |tests[i].stress| > 0
    ensures r.Err? ==> r == Err(EmptySeries)
    ensures r.Ok? ==> |r.value| == |tests| && forall i | 0 <= i < |tests| :: r.value[i] == Max(tests[i].stress)
  {
    if forall i | 0 <= i < |tests| :: |tests[i].stress| > 0 then
      Ok(seq(|tests|, i requires 0 <= i < |tests| => Max(tests[i].stress)))
    else Err(EmptySeries)
  }

  // ---------------------------------------------------------------------
  // Pass two: per-test quantities
  // ---------------------------------------------------------------------

  /** The failure stress of a test under the global strength parameters. */
  function TestQf(f: Functions, t: TriaxialTest, st: Strength): Result<real> {
    CalculateQf(f, Some(t.cp), Some(st.c), Some(st.phi))
  }

  /** The quantities of one test, in the order the script computes them:
      qf, E50ref, qa, then Rf = qf / qa (`None` if qa = 0), Eur, Eoed and
      psi. The first failing estimator decides the error. Because every qa
      `calculate_qa` returns is positive, Rf is always defined. */
  function DeriveTest(f: Functions, t: TriaxialTest, st: Strength): (r: Result<TestResult>)
    requires WellFormed(t)
    ensures TestQf(f, t, st).Err? ==> r == Err(TestQf(f, t, st).error)
    ensures TestQf(f, t, st).Ok? && CalculateE50ref(t.strain, t.stress).Err? ==>
      r == Err(CalculateE50ref(t.strain, t.stress).error)
    ensures TestQf(f, t, st).Ok? && CalculateE50ref(t.strain, t.stress).Ok? && CalculateQa(t.strain, t.stress).Err? ==>
      r == Err(CalculateQa(t.strain, t.stress).error)
    ensures r.Ok? <==>
      TestQf(f, t, st).Ok? && CalculateE50ref(t.strain, t.stress).Ok? && CalculateQa(t.strain, t.stress).Ok?
    ensures r.Ok? ==>
      && r.value.qf == TestQf(f, t, st).value
      && r.value.e50Ref == CalculateE50ref(t.strain, t.stress).value
      && r.value.qa == CalculateQa(t.strain, t.stress).value
      && r.value.eurRef == 3.0 * r.value.e50Ref
      && r.value.eoedRef == r.value.e50Ref
      && r.value.psi == CalculatePsi(f, t.strain, t.volStrain)
    ensures r.Ok? ==> r.value.qa > 0.0 && r.value.rf == Some(FailureRatio(r.value.qf, r.value.qa))
  {
    var qf :- TestQf(f, t, st);
    var e50 :- CalculateE50ref(t.strain, t.stress);
    var qa :- CalculateQa(t.strain, t.stress);
    var rf := if qa != 0.0 then Some(FailureRatio(qf, qa)) else None;
    Ok(TestResult(qf, e50, qa, rf, CalculateEurRef(e50), CalculateEoedRef(e50),
                  CalculatePsi(f, t.strain, t.volStrain)))
  }

  /** The failure ratio Rf = qf / qa. */
  function FailureRatio(qf: real, qa: real): (rf: real)
    requires qa != 0.0
    ensures rf * qa == qf
  {
    qf / qa
  }

  /** The pass-two derivation of every test, in test order. */
  function Derivations(f: Functions, tests: seq<TriaxialTest>, st: Strength): (rs: seq<Result<TestResult>>)
    requires AllWellFormed(tests)
    ensures |rs| == |tests|
    ensures forall i | 0 <= i < |tests| :: rs[i] == DeriveTest(f, tests[i], st)
  {
    seq(|tests|, i requires 0 <= i < |tests| => DeriveTest(f, tests[i], st))
  }

  // ---------------------------------------------------------------------
  // Aggregation
  // ---------------------------------------------------------------------

  /** The mask `x is not None` over xs. */
  function DefinedMask(xs: seq<Option<real>>): (mask: seq<bool>)
    ensures |mask| == |xs|
  {
    seq(|xs|, i requires 0 <= i < |xs| => xs[i].Some?)
  }

  /** The defined values among xs, in order: what `np.nanmean` averages and
      what the filter `if rf is not None` keeps. `DefinedPositions` states
      that order and repetitions are kept. */
  function DefinedTo(xs: seq<Option<real>>, n: nat): (ys: seq<real>)
    requires n <= |xs|
    ensures |ys| <= n
    ensures |ys| == 0 <==> forall i | 0 <= i < n :: xs[i].None?
    ensures (forall i | 0 <= i < n :: xs[i].Some?) ==>
      |ys| == n && forall i | 0 <= i < n :: ys[i] == xs[i].value
  {
    if n == 0 then []
    else
      var init := DefinedTo(xs, n - 1);
      match xs[n - 1]
      case None => init
      case Some(v) => init + [v]
  }

  /** Every defined value among the first n is kept, and nothing else is. */
  lemma {:induction false} DefinedKeepsExactly(xs: seq<Option<real>>, n: nat)
    requires n <= |xs|
    ensures forall i | 0 <= i < n && xs[i].Some? :: xs[i].value in DefinedTo(xs, n)
    ensures forall j | 0 <= j < |DefinedTo(xs, n)| :: Some(DefinedTo(xs, n)[j]) in xs[..n]
  {
    if n > 0 {
      DefinedKeepsExactly(xs, n - 1);
      assert xs[..n] == xs[..n - 1] + [xs[n - 1]];
    }
  }

  /** The j-th kept value is the value at the j-th defined position among
      the first n (`WhereTo` lists those positions in ascending order, by
      `WhereToAscending`), so the filter keeps every defined value once per
      occurrence and in order. */
  lemma {:induction false} DefinedPositions(xs: seq<Option<real>>, n: nat)
    requires n <= |xs|
    ensures |DefinedTo(xs, n)| == |WhereTo(DefinedMask(xs), n)|
    ensures forall j | 0 <= j < |DefinedTo(xs, n)| ::
      xs[WhereTo(DefinedMask(xs), n)[j]] == Some(DefinedTo(xs, n)[j])
  {
    if n > 0 {
      DefinedPositions(xs, n - 1);
      assert DefinedMask(xs)[n - 1] == xs[n - 1].Some?;
    }
  }

  function Defined(xs: seq<Option<real>>): seq<real> {
    DefinedTo(xs, |xs|)
  }

  /** The mean of the defined values, `None` when there are none (numpy's
      NaN, with a warning). */
  function MeanOfDefined(xs: seq<Option<real>>): (r: Option<real>)
    ensures r.None? <==> forall i | 0 <= i < |xs| :: xs[i].None?
    ensures r.Some? ==> r.value == Mean(Defined(xs))
  {
    var ys := Defined(xs);
    if |ys| == 0 then None else Some(Mean(ys))
  }

  /** When every value is defined, the mean of the defined values is the
      plain mean: nothing is excluded. */
  lemma MeanOfAllDefined(xs: seq<Option<real>>, ys: seq<real>)
    requires |xs| == |ys| > 0
    requires forall i | 0 <= i < |xs| :: xs[i] == Some(ys[i])
    ensures MeanOfDefined(xs) == Some(Mean(ys))
  {
    assert Defined(xs) == ys;
  }

  function E50refs(results: seq<TestResult>): (es: seq<real>)
    ensures |es| == |results|
    ensures forall i | 0 <= i < |results| :: es[i] == results[i].e50Ref
  {
    seq(|results|, i requires 0 <= i < |results| => results[i].e50Ref)
  }

  function Psis(results: seq<TestResult>): (ps: seq<Option<real>>)
    ensures |ps| == |results|
    ensures forall i | 0 <= i < |results| :: ps[i] == results[i].psi
  {
    seq(|results|, i requires 0 <= i < |results| => results[i].psi)
  }

  function Rfs(results: seq<TestResult>): (rs: seq<Option<real>>)
    ensures |rs| == |results|
    ensures forall i | 0 <= i < |results| :: rs[i] == results[i].rf
  {
    seq(|results|, i requires 0 <= i < |results| => results[i].rf)
  }

  /** The mean Rf over the tests whose Rf is defined; none defined is an
      error (the mean of an empty list). */
  function MeanRf(results: seq<TestResult>): (r: Result<real>)
    ensures r.Ok? <==> MeanOfDefined(Rfs(results)).Some?
    ensures r.Ok? ==> r.value == MeanOfDefined(Rfs(results)).value
    ensures r.Err? ==> r == Err(NoDefinedValues)
  {
    match MeanOfDefined(Rfs(results))
    case None => Err(NoDefinedValues)
    case Some(v) => Ok(v)
  }

  /** The global parameters from the strength envelope, the per-test results
      and the stiffness regression: E50ref is the mean of the experimental
      moduli, Eoed equals it and Eur is three times it; m comes from the
      regression; psi is the mean over the tests with a defined angle; K0 =
      1 - sin phi; v_ur and p_ref keep their defaults. */
  function GlobalParameters(f: Functions, st: Strength, results: seq<TestResult>, law: StiffnessLaw, rf: real)
    : (p: Parameters)
    requires |results| > 0
    ensures p.e50Ref == Mean(E50refs(results))
    ensures p.eoedRef == p.e50Ref && p.eurRef == 3.0 * p.e50Ref
    ensures p.c == st.c && p.phi == st.phi && p.m == law.m && p.rf == rf
    ensures p.psi == MeanOfDefined(Psis(results))
    ensures p.k0 == 1.0 - f.sinDeg(st.phi)
    ensures p.vur == 0.2 && p.pRef == 100.0
  {
    var e50 := Mean(E50refs(results));
    Parameters(e50, 3.0 * e50, e50, st.c, st.phi, MeanOfDefined(Psis(results)), law.m,
               CalculateVur(), ReferencePressure, K0(f, st.phi), rf)
  }

  // ---------------------------------------------------------------------
  // Pass three: model curves
  // ---------------------------------------------------------------------

  /** The model curve of one test: `GridPoints` strains evenly spaced from 0
      to the test's largest strain, and the hyperbolic model stress at each,
      driven by the regression-fitted E50ref. */
  function CurveOf(f: Functions, t: TriaxialTest, p: Parameters, e50Fitted: real): (r: Result<ModelCurve>)
    requires |t.strain| > 0
    ensures r.Ok? <==>
      ModelHyperbolicCurve(f, Linspace(0.0, Max(t.strain), GridPoints), t.cp, e50Fitted,
                           p.c, p.phi, p.m, p.rf, p.pRef).Ok?
    ensures r.Err? ==> r.error == ModelHyperbolicCurve(
      f, Linspace(0.0, Max(t.strain), GridPoints), t.cp, e50Fitted, p.c, p.phi, p.m, p.rf, p.pRef).error
    ensures r.Ok? ==>
      && r.value.strains == Linspace(0.0, Max(t.strain), GridPoints)
      && |r.value.strains| == GridPoints && |r.value.stresses| == GridPoints
      && r.value.stresses == ModelHyperbolicCurve(f, r.value.strains, t.cp, e50Fitted,
                                                  p.c, p.phi, p.m, p.rf, p.pRef).value
  {
    var grid := Linspace(0.0, Max(t.strain), GridPoints);
    var stresses :- ModelHyperbolicCurve(f, grid, t.cp, e50Fitted, p.c, p.phi, p.m, p.rf, p.pRef);
    Ok(ModelCurve(grid, stresses))
  }

  /** The pass-three curve of every test, in test order. */
  function Curves(f: Functions, tests: seq<TriaxialTest>, p: Parameters, e50Fitted: real): (rs: seq<Result<ModelCurve>>)
    requires forall i | 0 <= i < |tests| :: |tests[i].strain| > 0
    ensures |rs| == |tests|
    ensures forall i | 0 <= i < |tests| :: rs[i] == CurveOf(f, tests[i], p, e50Fitted)
  {
    seq(|tests|, i requires 0 <= i < |tests| => CurveOf(f, tests[i], p, e50Fitted))
  }

  // ---------------------------------------------------------------------
  // The whole run
  // ---------------------------------------------------------------------

  /** Everything after pass two: the stiffness regression, the aggregated
      parameters, then the model curves. */
  function Aggregate(f: Functions, tests: seq<TriaxialTest>, st: Strength, results: seq<TestResult>)
    : (r: Result<Outcome>)
    requires |results| == |tests| > 0
    requires forall i | 0 <= i < |tests| :: |tests[i].strain| > 0
  {
    var law :- CalculateM(f, Pressures(tests), E50refs(results), st.c, st.phi, ReferencePressure);
    var rf :- MeanRf(results);
    var p := GlobalParameters(f, st, results, law, rf);
    var curves :- Collect(Curves(f, tests, p, law.e50Ref));
    Ok(Outcome(p, results, law.e50Ref, curves))
  }

  /** The calibration run: pass one and the strength fit, pass two, then the
      aggregation and pass three. */
  function Calibrate(f: Functions, tests: seq<TriaxialTest>): (r: Result<Outcome>)
    requires AllWellFormed(tests)
  {
    var peaks :- PeakStresses(tests);
    var st :- CalculatePhiAndC(f, Pressures(tests), peaks);
    StrengthNeedsTests(f, tests, peaks);
    var results :- Collect(Derivations(f, tests, st));
    NonEmptyStrains(tests);
    Aggregate(f, tests, st, results)
  }

  lemma StrengthNeedsTests(f: Functions, tests: seq<TriaxialTest>, peaks: seq<real>)
    requires |peaks| == |tests|
    requires CalculatePhiAndC(f, Pressures(tests), peaks).Ok?
    ensures |tests| >= 2
  {
    if |tests| < 2 {
      assert AllEqual(Pressures(tests));
    }
  }

  lemma NonEmptyStrains(tests: seq<TriaxialTest>)
    requires AllWellFormed(tests) && forall i | 0 <= i < |tests| :: |tests[i].stress| > 0
    ensures forall i | 0 <= i < |tests| :: |tests[i].strain| > 0
  {
  }

  // ---------------------------------------------------------------------
  // What a completed run guarantees
  // ---------------------------------------------------------------------

  /** A completed run, taken apart into its stages: the peak stresses of pass
      one, the strength envelope fitted to them, the per-test results of pass
      two, the stiffness regression, the mean Rf and the curves of pass three. */
  lemma CalibrationStages(f: Functions, tests: seq<TriaxialTest>)
    returns (peaks: seq<real>, st: Strength, results: seq<TestResult>, law: StiffnessLaw, rf: real,
             curves: seq<ModelCurve>)
    requires AllWellFormed(tests) && Calibrate(f, tests).Ok?
    ensures PeakStresses(tests) == Ok(peaks)
    ensures CalculatePhiAndC(f, Pressures(tests), peaks) == Ok(st)
    ensures |tests| >= 2 && forall i | 0 <= i < |tests| :: |tests[i].strain| > 0
    ensures Collect(Derivations(f, tests, st)) == Ok(results)
    ensures |results| == |tests|
    ensures CalculateM(f, Pressures(tests), E50refs(results), st.c, st.phi, ReferencePressure) == Ok(law)
    ensures MeanRf(results) == Ok(rf)
    ensures Collect(Curves(f, tests, GlobalParameters(f, st, results, law, rf), law.e50Ref)) == Ok(curves)
    ensures Calibrate(f, tests) == Ok(Outcome(GlobalParameters(f, st, results, law, rf), results, law.e50Ref, curves))
  {
    peaks := PeakStresses(tests).value;
    st := CalculatePhiAndC(f, Pressures(tests), peaks).value;
    StrengthNeedsTests(f, tests, peaks);
    NonEmptyStrains(tests);
    results := Collect(Derivations(f, tests, st)).value;
    law := CalculateM(f, Pressures(tests), E50refs(results), st.c, st.phi, ReferencePressure).value;
    rf := MeanRf(results).value;
    curves := Collect(Curves(f, tests, GlobalParameters(f, st, results, law, rf), law.e50Ref)).value;
  }

  /** The result pass two recorded for test i is that test's derivation. */
  lemma ResultOf(f: Functions, tests: seq<TriaxialTest>, st: Strength, results: seq<TestResult>, i: nat)
    requires AllWellFormed(tests) && Collect(Derivations(f, tests, st)) == Ok(results) && i < |tests|
    ensures DeriveTest(f, tests[i], st).Ok? && results[i] == DeriveTest(f, tests[i], st).value
  {
    assert Derivations(f, tests, st)[i] == DeriveTest(f, tests[i], st);
  }

  /** Pass one and the strength fit come first: phi and c are those of the
      envelope through every test's (sigma3, peak stress), and every test's
      qf is computed with those same phi and c. */
  lemma StrengthFittedFirst(f: Functions, tests: seq<TriaxialTest>)
    requires AllWellFormed(tests) && Calibrate(f, tests).Ok?
    ensures var o := Calibrate(f, tests).value;
      && PeakStresses(tests).Ok?
      && CalculatePhiAndC(f, Pressures(tests), PeakStresses(tests).value) == Ok(Strength(o.params.phi, o.params.c))
      && |o.results| == |tests|
      && forall i | 0 <= i < |tests| ::
           CalculateQf(f, Some(tests[i].cp), Some(o.params.c), Some(o.params.phi)) == Ok(o.results[i].qf)
  {
    var peaks, st, results, law, rf, curves := CalibrationStages(f, tests);
    forall i | 0 <= i < |tests|
      ensures CalculateQf(f, Some(tests[i].cp), Some(st.c), Some(st.phi)) == Ok(results[i].qf)
    {
      ResultOf(f, tests, st, results, i);
    }
  }

  /** The defined Rf values, in test order. */
  function RfValues(results: seq<TestResult>): (vs: seq<real>)
    requires forall i | 0 <= i < |results| :: results[i].rf.Some?
    ensures |vs| == |results|
    ensures forall i | 0 <= i < |results| :: vs[i] == results[i].rf.value
  {
    seq(|results|, i requires 0 <= i < |results| => results[i].rf.value)
  }

  /** Every test's Rf is qf / qa with qa > 0, so none is `None` and none is
      filtered out. */
  lemma RfOfEveryTest(f: Functions, tests: seq<TriaxialTest>)
    requires AllWellFormed(tests) && Calibrate(f, tests).Ok?
    ensures var o := Calibrate(f, tests).value;
      && |o.results| == |tests|
      && forall i | 0 <= i < |tests| ::
           o.results[i].qa > 0.0 && o.results[i].rf == Some(FailureRatio(o.results[i].qf, o.results[i].qa))
  {
    var peaks, st, results, law, rf, curves := CalibrationStages(f, tests);
    RatiosDefined(f, tests, st, results);
  }

  /** The global Rf is the mean of the Rf of all tests. */
  lemma RfIsMeanOfRatios(f: Functions, tests: seq<TriaxialTest>)
    requires AllWellFormed(tests) && Calibrate(f, tests).Ok?
    ensures var o := Calibrate(f, tests).value;
      && |o.results| > 0
      && (forall i | 0 <= i < |o.results| :: o.results[i].rf.Some?)
      && o.params.rf == Mean(RfValues(o.results))
  {
    var peaks, st, results, law, rf, curves := CalibrationStages(f, tests);
    RfsDefined(f, tests, st, results);
    MeanRfIsMean(results, rf);
  }

  lemma RfsDefined(f: Functions, tests: seq<TriaxialTest>, st: Strength, results: seq<TestResult>)
    requires AllWellFormed(tests) && Collect(Derivations(f, tests, st)) == Ok(results)
    ensures forall i | 0 <= i < |results| :: results[i].rf.Some?
  {
    forall i | 0 <= i < |results|
      ensures results[i].rf.Some?
    {
      ResultOf(f, tests, st, results, i);
    }
  }

  lemma RatiosDefined(f: Functions, tests: seq<TriaxialTest>, st: Strength, results: seq<TestResult>)
    requires AllWellFormed(tests) && Collect(Derivations(f, tests, st)) == Ok(results)
    ensures |results| == |tests|
    ensures forall i | 0 <= i < |tests| ::
      results[i].qa > 0.0 && results[i].rf == Some(FailureRatio(results[i].qf, results[i].qa))
  {
    forall i | 0 <= i < |tests|
      ensures results[i].qa > 0.0 && results[i].rf == Some(FailureRatio(results[i].qf, results[i].qa))
    {
      ResultOf(f, tests, st, results, i);
    }
  }

  lemma MeanRfIsMean(results: seq<TestResult>, rf: real)
    requires |results| > 0 && forall i | 0 <= i < |results| :: results[i].rf.Some?
    requires MeanRf(results) == Ok(rf)
    ensures rf == Mean(RfValues(results))
  {
    MeanOfAllDefined(Rfs(results), RfValues(results));
  }

  /** The global E50ref is the arithmetic mean of the tests' experimental
      secant moduli; Eoed_ref equals it and Eur_ref is three times it. */
  lemma ModuliFromMean(f: Functions, tests: seq<TriaxialTest>)
    requires AllWellFormed(tests) && Calibrate(f, tests).Ok?
    ensures var o := Calibrate(f, tests).value;
      && |o.results| == |tests| > 0
      && (forall i | 0 <= i < |tests| ::
            CalculateE50ref(tests[i].strain, tests[i].stress) == Ok(o.results[i].e50Ref))
      && o.params.e50Ref == Mean(E50refs(o.results))
      && o.params.eoedRef == o.params.e50Ref
      && o.params.eurRef == 3.0 * o.params.e50Ref
  {
    var peaks, st, results, law, rf, curves := CalibrationStages(f, tests);
    forall i | 0 <= i < |tests|
      ensures CalculateE50ref(tests[i].strain, tests[i].stress) == Ok(results[i].e50Ref)
    {
      ResultOf(f, tests, st, results, i);
    }
  }

  /** The model curves are driven by the E50ref and m of the stiffness
      regression over the tests' moduli, not by the reported mean E50ref. */
  lemma CurvesUseFittedModulus(f: Functions, tests: seq<TriaxialTest>)
    requires AllWellFormed(tests) && Calibrate(f, tests).Ok?
    ensures var o := Calibrate(f, tests).value;
      && |o.results| == |tests| && |o.curves| == |tests|
      && CalculateM(f, Pressures(tests), E50refs(o.results), o.params.c, o.params.phi, 100.0)
         == Ok(StiffnessLaw(o.params.m, o.e50Fitted))
      && forall i | 0 <= i < |tests| ::
           ModelHyperbolicCurve(f, o.curves[i].strains, tests[i].cp, o.e50Fitted,
                                o.params.c, o.params.phi, o.params.m, o.params.rf, 100.0)
           == Ok(o.curves[i].stresses)
  {
    var peaks, st, results, law, rf, curves := CalibrationStages(f, tests);
    var p := GlobalParameters(f, st, results, law, rf);
    forall i | 0 <= i < |tests|
      ensures ModelHyperbolicCurve(f, curves[i].strains, tests[i].cp, law.e50Ref, p.c, p.phi, p.m, p.rf, 100.0)
              == Ok(curves[i].stresses)
    {
      CurveAt(f, tests, p, law.e50Ref, curves, i);
    }
  }

  /** The curve pass three recorded for test i is that test's curve. */
  lemma CurveAt(f: Functions, tests: seq<TriaxialTest>, p: Parameters, e50Fitted: real, curves: seq<ModelCurve>, i: nat)
    requires forall j | 0 <= j < |tests| :: |tests[j].strain| > 0
    requires Collect(Curves(f, tests, p, e50Fitted)) == Ok(curves) && i < |tests|
    ensures CurveOf(f, tests[i], p, e50Fitted) == Ok(curves[i])
  {
    assert Curves(f, tests, p, e50Fitted)[i] == CurveOf(f, tests[i], p, e50Fitted);
  }

  /** Every test's model curve lies on 100 evenly spaced strains from 0 to
      that test's largest strain, with one modelled stress per strain. */
  lemma ModelGridPerTest(f: Functions, tests: seq<TriaxialTest>)
    requires AllWellFormed(tests) && Calibrate(f, tests).Ok?
    ensures var o := Calibrate(f, tests).value;
      && |o.curves| == |tests|
      && forall i | 0 <= i < |tests| ::
           && |tests[i].strain| > 0
           && o.curves[i].strains == Linspace(0.0, Max(tests[i].strain), 100)
           && |o.curves[i].stresses| == 100
  {
    var peaks, st, results, law, rf, curves := CalibrationStages(f, tests);
    var p := GlobalParameters(f, st, results, law, rf);
    forall i | 0 <= i < |tests|
      ensures curves[i].strains == Linspace(0.0, Max(tests[i].strain), 100) && |curves[i].stresses| == 100
    {
      CurveAt(f, tests, p, law.e50Ref, curves, i);
    }
  }

  /** The global psi is the mean of the tests' dilatancy angles over those
      that are defined; a test without dilatant points contributes an angle
      of 0 and so is counted, not excluded. */
  lemma PsiMeanCountsNonDilatant(f: Functions, tests: seq<TriaxialTest>)
    requires AllWellFormed(tests) && Calibrate(f, tests).Ok?
    ensures var o := Calibrate(f, tests).value;
      && |o.results| == |tests|
      && o.params.psi == MeanOfDefined(Psis(o.results))
      && forall i | 0 <= i < |tests| ::
           && o.results[i].psi == CalculatePsi(f, tests[i].strain, tests[i].volStrain)
           && ((forall j | 0 <= j < |tests[i].volStrain| :: tests[i].volStrain[j] >= 0.0) ==>
                 o.results[i].psi == Some(0.0))
  {
    var peaks, st, results, law, rf, curves := CalibrationStages(f, tests);
    forall i | 0 <= i < |tests|
      ensures results[i].psi == CalculatePsi(f, tests[i].strain, tests[i].volStrain)
    {
      ResultOf(f, tests, st, results, i);
    }
  }

  /** When no test is dilatant the global psi is exactly 0. */
  lemma NoDilatancyGivesZeroPsi(f: Functions, tests: seq<TriaxialTest>)
    requires AllWellFormed(tests) && Calibrate(f, tests).Ok?
    requires forall i, j | 0 <= i < |tests| && 0 <= j < |tests[i].volStrain| :: tests[i].volStrain[j] >= 0.0
    ensures Calibrate(f, tests).value.params.psi == Some(0.0)
  {
    var peaks, st, results, law, rf, curves := CalibrationStages(f, tests);
    forall i | 0 <= i < |tests|
      ensures Psis(results)[i] == Some(0.0)
    {
      ResultOf(f, tests, st, results, i);
    }
    MeanOfZeros(Psis(results));
  }

  /** The mean of defined values that are all 0 is 0. */
  lemma MeanOfZeros(xs: seq<Option<real>>)
    requires |xs| > 0 && forall i | 0 <= i < |xs| :: xs[i] == Some(0.0)
    ensures MeanOfDefined(xs) == Some(0.0)
  {
    var zeros := seq(|xs|, i requires 0 <= i < |xs| => 0.0);
    MeanOfAllDefined(xs, zeros);
    MeanOfConstant(zeros, 0.0);
  }

  /** K0_nc = 1 - sin phi, and v_ur and p_ref keep their defaults 0.2 and
      100 kPa. */
  lemma DefaultsKept(f: Functions, tests: seq<TriaxialTest>)
    requires AllWellFormed(tests) && Calibrate(f, tests).Ok?
    ensures var p := Calibrate(f, tests).value.params;
      p.k0 == 1.0 - f.sinDeg(p.phi) && p.vur == 0.2 && p.pRef == 100.0
  {
    var peaks, st, results, law, rf, curves := CalibrationStages(f, tests);
  }

  // ---------------------------------------------------------------------
  // Aborting runs
  // ---------------------------------------------------------------------

  /** A test with an empty stress series stops the run in pass one. */
  lemma EmptyStressAborts(f: Functions, tests: seq<TriaxialTest>, k: nat)
    requires AllWellFormed(tests) && k < |tests| && |tests[k].stress| == 0
    ensures Calibrate(f, tests) == Err(EmptySeries)
  {
  }

  /** An estimator error in pass two stops the whole run with the error of
      the first failing test: nothing is aggregated or modelled. */
  lemma FailingTestAbortsCalibration(f: Functions, tests: seq<TriaxialTest>, st: Strength, k: nat)
    requires AllWellFormed(tests) && PeakStresses(tests).Ok?
    requires CalculatePhiAndC(f, Pressures(tests), PeakStresses(tests).value) == Ok(st)
    requires k < |tests| && FirstFailure(Derivations(f, tests, st), k)
    ensures Calibrate(f, tests) == Err(DeriveTest(f, tests[k], st).error)
  {
    CollectFirstFailure(Derivations(f, tests, st), k);
  }
}
