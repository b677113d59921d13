# Hardening Soil calibration, modelled in Dafny

The Hardening Soil calibrator turns a set of drained triaxial tests into the
parameters of the Hardening Soil constitutive model. Each test is one confining
pressure sigma3 with its axial-strain, deviatoric-stress and volumetric-strain
series. The outputs are:
- strength: friction angle phi and cohesion c;
- stiffness: reference secant modulus E50ref, exponent m, Eur_ref and Eoed_ref;
- dilatancy angle psi, K0_nc, v_ur and p_ref;
- failure ratio Rf;
- a modelled hyperbolic stress-strain curve per test.

This project models two parts of it:
- the estimators of `HardeningSoilParameters` (`src/parameters.py`);
- the three-pass calibration run in `main()` (`main.py`).

It proves what each estimator promises and how the estimators fit together.

Modules:

- `Outcomes` (`outcomes.dfy`):
  - `Result` and `Option`, and the error kinds an estimator can stop the run with;
  - `Collect`, the "first error ends the loop" combinator.
- `Transcendental` (`transcendental.dfy`):
  - sin, cos, tan and arcsin in degrees, ln, exp and real power, as uninterpreted fields of a `Functions` value;
  - `LogLaws` and `TrigLaws`, the few laws some lemmas assume of them as preconditions.
- `Statistics` (`statistics.dfy`):
  - sums, means, and the ordinary least-squares line used for `np.polyfit(.., 1)` and `scipy.stats.linregress`;
  - the line is `None` exactly when the abscissae are all equal;
  - it recovers any line the points lie on exactly.
- `Arrays` (`arrays.dfy`): the numpy selections the estimators use:
  - first argmax and argmin, maximum;
  - boolean masks and fancy indexing, `np.diff`;
  - element-wise quotients, `np.linspace`.
- `HardeningSoil` (`parameters.dfy`): every static method of `HardeningSoilParameters`.
- `Calibration` (`calibration.dfy`): the calibration run:
  - pass one: the peak stresses and the strength envelope;
  - pass two: the per-test quantities under that one envelope;
  - aggregation of the global parameters;
  - pass three: the model curves on a 100-point grid.

  The first estimator error aborts the run.

Real numbers are exact Dafny `real`s. Where numpy would divide by zero, take an
arcsine outside [-1, 1] or a logarithm of a non-positive number, the model
returns an error. The exception is the dilatancy angle, where numpy's NaN is
modelled as `None` so that `np.nanmean` can skip it, as the script does.

Three details of the source that the model follows:
- For qa, only points *strictly above* 10 % of the truncated peak are fitted (`>` at `src/parameters.py:184`), so a point at exactly 10 % is not fitted.
- The stiffness regression's logarithm is taken of the stress-level *ratio* (`np.log(numerator / denominator)`, `src/parameters.py:65`), so its domain condition is on that ratio, not on the stress level itself.
- An Rf of None (qa = 0 at `main.py:79`) cannot occur. `calculate_qa` either raises, returns qa >= the peak stress > 0, or returns NaN when only one point is fitted (a NaN slope from `linregress` passes both checks at `src/parameters.py:194` and `201`). The model treats the one-point case as a degenerate fit, an error. `Calibration.RfOfEveryTest` proves that every test's Rf is defined.

## Model

| member | source | states |
|---|---|---|
| Statistics.LeastSquares | src/parameters.py:10 | the least-squares line is undefined exactly when all abscissae are equal (fewer than two distinct pressures) |
| Statistics.LeastSquaresExact | src/parameters.py:10 | points lying exactly on y = M x + B with abscissae not all equal are fitted by exactly slope M and intercept B |
| Statistics.DegeneracyCharacterization | src/parameters.py:10 | the centred sum of squares of the abscissae is non-negative and zero exactly when they are all equal |
| Arrays.ArgMax | src/parameters.py:176 | the index is in range, holds a largest element, and every earlier element is strictly smaller (numpy's first maximum) |
| Arrays.ArgMin | src/parameters.py:41 | the index is in range, holds a smallest element, and every earlier element is strictly larger (numpy's first minimum) |
| Arrays.ArgMaxOfPrefix | src/parameters.py:176-184 | any prefix that still contains the first peak (such as the series cut just after it) has the same first peak index and the same maximum |
| Arrays.Where | src/parameters.py:184-186 | the kept indices are exactly the positions where the mask holds |
| Arrays.WhereAscending | src/parameters.py:184-186 | boolean-mask indexing keeps the selected positions in strictly increasing order |
| Arrays.Diffs | src/parameters.py:26-27 | one fewer difference than values (none for an empty series), each the next value minus the current |
| Arrays.LinspaceEvenlySpaced | main.py:121 | the grid starts at 0, ends exactly at the largest strain, and consecutive points are one step (stop - start)/(num - 1) apart |
| Arrays.LinspaceOrdered | main.py:121 | with start <= stop the grid is non-decreasing |
| Arrays.LinspaceBounded | main.py:121 | with start <= stop every grid point lies in [start, stop] |
| Outcomes.CollectTo | main.py:151-153 | a sequence of estimator outcomes succeeds exactly when all do, keeping every value in order; otherwise it fails with the error of the first failure |
| Outcomes.CollectFirstFailure | main.py:151-153 | the error a failing loop reports is that of its first failing iteration |
| HardeningSoil.CalculatePhiAndC | src/parameters.py:9-14 | pressures all equal give a degenerate-fit error; otherwise phi and c are those of the least-squares failure line |
| HardeningSoil.StrengthOfEnvelope | src/parameters.py:11-13 | succeeds exactly when 2 + M != 0, M/(2+M) lies in [-1, 1] and cos phi != 0; then phi = asin(M/(2+M)) and 2 c cos phi = B (1 - sin phi) |
| HardeningSoil.FailureLineRoundTrip | src/parameters.py:10-13 | peak stresses exactly on q = M sigma3 + B (M > 0, pressures not all equal) give sin phi = M/(2+M), and the qf computed back from that phi and c is M cp + B at every cp |
| HardeningSoil.FittedStrength | src/parameters.py:11-13 | for M > 0 the fitted angle has sine M/(2+M) in (0, 1) and a positive cosine and tangent |
| HardeningSoil.K0OfFailureSlope | src/parameters.py:76-78 | for the angle fitted from a failure slope M > 0, K0_nc = 1 - sin phi = 2/(2+M) |
| HardeningSoil.CalculateQf | src/parameters.py:88-112 | a missing phi, c or cp is an error, checked in that order; with all present it succeeds exactly when tan phi != 0 and sin phi != 1 |
| HardeningSoil.QfIncreasingInPressure | src/parameters.py:111-112 | with 0 < sin phi < 1 and tan phi > 0 the failure stress is strictly increasing in the confining pressure |
| HardeningSoil.SecantIndex | src/parameters.py:39-41 | the chosen point is nearest to half the peak stress, and no earlier point is equally near |
| HardeningSoil.CalculateE50ref | src/parameters.py:34-42 | an empty series is an error; otherwise the result is the secant modulus at the point nearest half the peak |
| HardeningSoil.SecantAt | src/parameters.py:42 | defined exactly when the strain there is non-zero, and then modulus times strain equals stress |
| HardeningSoil.SecantOfLinearLoading | src/parameters.py:39-42 | a test with stress = E strain at every point (no zero strain) has experimental modulus E |
| HardeningSoil.QaFitIndices | src/parameters.py:176-186 | every fitted point is at or before the first peak and above 10 % of the peak, and every such point is fitted |
| HardeningSoil.QaFitAscending | src/parameters.py:176-186 | the fitted points keep the order of the test |
| HardeningSoil.PeakKeptWhenPositive | src/parameters.py:176-186 | when the peak stress is positive the peak point itself is fitted |
| HardeningSoil.HyperbolicFit | src/parameters.py:183-191 | an empty series is an error; otherwise the fit succeeds exactly when no fitted stress is zero and the fitted strains are not all equal |
| HardeningSoil.CalculateQa | src/parameters.py:143-204 | fit errors propagate; otherwise the result is that of the slope check, and every qa returned is positive and at least the observed peak stress |
| HardeningSoil.AsymptoteOfSlope | src/parameters.py:193-204 | a slope <= 0 is a non-physical-fit error; for a positive slope, qa = 1/slope is returned exactly when it is at least the peak, otherwise a below-maximum error |
| HardeningSoil.QaRecoversHyperbola | src/parameters.py:175-204 | a test lying exactly on eps/q = b eps + a (b > 0, 1/b at least the peak, fitted strains not all equal) yields qa = 1/b |
| HardeningSoil.DilatantIndices | src/parameters.py:22-23 | exactly the points with negative volumetric strain; none exactly when no volumetric strain is negative |
| HardeningSoil.DilatantAscending | src/parameters.py:22-23 | the dilatant points keep the order of the test |
| HardeningSoil.DilatancyRate | src/parameters.py:26-29 | defined exactly when there are at least two dilatant points and no zero axial increment; then minus the rate is the mean of the increment ratios |
| HardeningSoil.CalculatePsi | src/parameters.py:17-31 | no negative volumetric strain gives exactly 0; otherwise psi = asin(a/(2+a)) whenever that is defined, and undefined (NaN) otherwise |
| HardeningSoil.PsiOfLinearDilation | src/parameters.py:22-31 | a test dilating linearly, eps_v = k - D eps_1, with increasing axial strain and two dilatant points, has rate D and psi = asin(D/(2+D)) |
| HardeningSoil.StressRatio | src/parameters.py:61-65 | the ratio times the reference stress level is the stress level at sigma |
| HardeningSoil.CalculateM | src/parameters.py:47-74 | a zero reference stress level is an error; a success has positive ratios and moduli, a non-degenerate log-log fit, m = its slope and E50ref = exp(intercept) |
| HardeningSoil.StiffnessFitRecoversPowerLaw | src/parameters.py:47-74 | moduli produced by the power law from (E50ref, m) at pressures not all equal are fitted back to exactly that m and E50ref |
| HardeningSoil.CalculateE50 | src/parameters.py:207-224 | defined exactly when the reference stress level c cos phi + p_ref sin phi is non-zero |
| HardeningSoil.E50AtReferencePressure | src/parameters.py:220-224 | at sigma3 = p_ref the power law returns E50ref itself (ratio 1, 1^m = 1) |
| HardeningSoil.Clamp | src/parameters.py:254 | the clamped strain is at least the floor and at least the strain, and unchanged when the strain is at or above the floor |
| HardeningSoil.HyperbolicCurve | src/parameters.py:253-257 | defined exactly when every clamped strain can be evaluated; one stress per strain; all strains at or below the floor give the same stress |
| HardeningSoil.HyperbolicCurveBounded | src/parameters.py:257 | with qa > 0 and E50 > 0 every model stress lies strictly between 0 and qa |
| HardeningSoil.HyperbolicCurveMonotone | src/parameters.py:257 | with qa > 0 and E50 > 0 the model stress never decreases as the strain grows |
| HardeningSoil.HyperbolaTransform | src/parameters.py:257 | at a positive strain the model satisfies eps/sigma = eps/qa + 1/(2 E50), the line the qa estimator fits |
| HardeningSoil.ModelCurveRoundTrip | src/parameters.py:253-257 | the qa estimator applied to a model curve (strains at or above the floor, fitted strains not all equal) recovers the qa the curve was built with |
| HardeningSoil.ModelHyperbolicCurve | src/parameters.py:227-259 | qf and Rf = 0 errors come first; a success uses qa = qf/Rf and the power-law E50 at sigma3, with one stress per strain |
| HardeningSoil.ModelCurveShape | src/parameters.py:244-257 | with qf > 0, Rf > 0 and E50 > 0 the curve exists, stays in (0, qf/Rf), is non-decreasing in strain and constant on strains at or below the floor |
| Calibration.PeakStresses | main.py:56-60 | every test's peak is its maximum stress, in test order; any empty stress series is an error |
| Calibration.DeriveTest | main.py:69-95 | qf, E50ref and qa are computed in that order, the first error deciding; on success qa > 0, Rf = qf/qa is defined, Eur = 3 E50ref, Eoed = E50ref, psi from the estimator |
| Calibration.DefinedTo | main.py:110-113 | the defined values: none exactly when none is defined, and all of them, in order, when all are |
| Calibration.DefinedKeepsExactly | main.py:110-113 | every defined value is kept and nothing that was not a defined value appears |
| Calibration.DefinedPositions | main.py:110-113 | the j-th kept value is the value at the j-th defined position, with the positions ascending, so the filter keeps every non-None value once per occurrence and in order |
| Calibration.MeanOfDefined | main.py:110 | undefined exactly when no value is defined; otherwise the mean of the defined values |
| Calibration.MeanOfAllDefined | main.py:112-113 | when every value is defined nothing is excluded: the result is the plain mean |
| Calibration.MeanRf | main.py:112-113 | the mean Rf over the defined values; no defined value is an error |
| Calibration.GlobalParameters | main.py:100-117 | E50ref is the mean experimental modulus, Eoed equals it, Eur is three times it, psi is the mean over defined angles, K0 = 1 - sin phi, v_ur = 0.2, p_ref = 100 |
| Calibration.CurveOf | main.py:120-131 | the grid is 100 strains from 0 to the test's largest strain, and the curve has one modelled stress per grid point |
| Calibration.CalibrationStages | main.py:55-140 | a completed run consists of pass one, the strength fit, pass two, the stiffness regression, the mean Rf and pass three, each succeeding |
| Calibration.StrengthFittedFirst | main.py:56-74 | phi and c are those fitted to every test's (sigma3, peak), and every test's qf uses those same phi and c |
| Calibration.RfOfEveryTest | main.py:78-79 | every test has qa > 0 and a defined Rf = qf/qa |
| Calibration.RfIsMeanOfRatios | main.py:97-113 | every test's Rf is defined and the global Rf is the mean over all tests |
| Calibration.ModuliFromMean | main.py:101-117 | each test's E50ref is the experimental secant modulus; the global E50ref is their mean, Eoed_ref equals it and Eur_ref is three times it |
| Calibration.CurvesUseFittedModulus | main.py:102-131 | m and the E50ref that drive every model curve are those of the stiffness regression over the tests' moduli |
| Calibration.ModelGridPerTest | main.py:120-131 | every test's curve lies on 100 even strains from 0 to its largest strain, with 100 modelled stresses |
| Calibration.PsiMeanCountsNonDilatant | main.py:110 | the global psi is the mean over defined angles; a test without dilatant points contributes an angle of 0 |
| Calibration.NoDilatancyGivesZeroPsi | main.py:110 | when no test is dilatant the global psi is exactly 0 |
| Calibration.DefaultsKept | main.py:109-111 | K0_nc = 1 - sin phi, v_ur = 0.2 and p_ref = 100 |
| Calibration.EmptyStressAborts | main.py:56-60 | a test with an empty stress series stops the run with an error in pass one |
| Calibration.FailingTestAbortsCalibration | main.py:143-153 | an estimator error in pass two stops the whole run with the first failing test's error, so nothing is aggregated, modelled or reported |

## Left out

- Floating point: rounding, overflow and tolerances are not modelled; all arithmetic is exact over the reals.
- Transcendentals: sin, cos, tan and arcsin in degrees, ln, exp and real power are uninterpreted. Only the laws stated in `LogLaws` and `TrigLaws` are assumed, and only by the lemmas that require them.
- Real power: raising a negative base to a fractional exponent is not checked for its domain; `pow` is applied as given.
- Non-finite values: numpy answers a zero division, an arcsine outside [-1, 1] or a logarithm of a non-positive number with inf or NaN and a warning. The model returns an error and the run stops. The only exception is the dilatancy angle, where NaN is modelled as `None`.
- HardeningSoil.CalculatePhiAndC: `np.polyfit` on identical pressures only warns (RankWarning) and returns a minimum-norm line. The model reports a degenerate fit.
- HardeningSoil.CalculateQa: `linregress` on a single point yields a NaN slope rather than raising. The model reports a degenerate fit. With identical strains `linregress` raises, as modelled.
- `linregress` outputs other than slope and intercept (r value, p value, standard error) are not modelled; the script discards them.
- Least squares is computed in centred form. It equals numpy's and scipy's line in exact arithmetic.
- HardeningSoil.ModelHyperbolicCurve: numpy answers a zero Rf with inf and continues. The model reports a division by zero.
- The test dictionary is a sequence in insertion order. The confining pressures (its keys) are assumed distinct, as a dictionary's keys are; nothing depends on it.
- Reading the Excel workbook (`src/data_loader.py`) is not part of this model. The tests are a parameter.
- Plotting (`src/visualization.py`), the PDF report (`src/report_generator.py`), `create_output_dirs`, file paths and printed messages are not part of this model. A completed run's `Outcome` is what they would consume.
- The generic `except Exception` handler at main.py:154-156 is not modelled separately: every modelled failure is an estimator error.
