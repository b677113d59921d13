/** Failure-compatible result types for the calibration engine.

    Every estimator of the Hardening Soil calibration either produces a value or
    stops the whole run with an error; `Result` carries that choice, and the
    `:-` operator propagates the first failure, as the single `except ValueError`
    handler of the calibration script does. */
module Outcomes {

  /** A value that may be absent, as Python's `None`. */
  datatype Option<+T> = None | Some(value: T)

  /** The reasons an estimator can stop the calibration. */
  datatype CalibrationError =
    | EmptySeries            // a maximum or argmax over a zero-size array
    | DegenerateFit          // a linear regression whose abscissae are all identical (or fewer than two)
    | MissingParameter(name: string)  // `calculate_qf` called with an unset argument
    | DivisionByZero         // a zero denominator in one of the closed-form expressions
    | OutOfDomain            // arcsin outside [-1, 1], or a logarithm of a non-positive number
    | NonPhysicalSlope       // the hyperbolic-transform fit has a slope <= 0
    | BelowObservedMaximum   // the fitted asymptote lies below the observed peak stress
    | NoDefinedValues        // a mean over an empty collection

  datatype Result<+T> = Ok(value: T) | Err(error: CalibrationError) {

    predicate IsFailure() {
      Err?
    }

    function PropagateFailure<U>(): Result<U>
      requires Err?
    {
      Err(error)
    }

    function Extract(): T
      requires Ok?
    {
      value
    }
  }

  /** The first n results combined, in order: all their values when every
      one succeeded, otherwise the error of the first that failed. This is a
      loop whose iterations may each raise: the first raise ends it. */
  function CollectTo<T>(rs: seq<Result<T>>, n: nat): (r: Result<seq<T>>)
    requires n <= |rs|
    ensures r.Ok? <==> forall i | 0 <= i < n :: rs[i].Ok?
    ensures r.Ok? ==> |r.value| == n && forall i | 0 <= i < n :: r.value[i] == rs[i].value
    ensures r.Err? ==> exists k | 0 <= k < n :: FirstFailure(rs, k) && r.error == rs[k].error
  {
    if n == 0 then Ok([])
    else
      match CollectTo(rs, n - 1)
      case Err(e) => Err(e)
      case Ok(init) =>
        match rs[n - 1]
        case Err(e) => assert FirstFailure(rs, n - 1); Err(e)
        case Ok(v) => Ok(init + [v])
  }

  /** rs[k] is the first failure: every earlier result succeeded. */
  predicate FirstFailure<T>(rs: seq<Result<T>>, k: nat) {
    k < |rs| && rs[k].Err? && forall i | 0 <= i < k :: rs[i].Ok?
  }

  function Collect<T>(rs: seq<Result<T>>): Result<seq<T>> {
    CollectTo(rs, |rs|)
  }

  /** At most one result is the first failure. */
  lemma FirstFailureUnique<T>(rs: seq<Result<T>>, j: nat, k: nat)
    requires FirstFailure(rs, j) && FirstFailure(rs, k)
    ensures j == k
  {
  }

  /** A combined run fails with exactly the error of its first failure. */
  lemma CollectFirstFailure<T>(rs: seq<Result<T>>, k: nat)
    requires FirstFailure(rs, k)
    ensures Collect(rs) == Err(rs[k].error)
  {
    var j :| 0 <= j < |rs| && FirstFailure(rs, j) && Collect(rs).error == rs[j].error;
    FirstFailureUnique(rs, j, k);
  }
}
