/** The transcendental functions the calibration evaluates through numpy.

    They are left uninterpreted: a `Functions` value is a parameter of every
    member that needs one, so nothing is assumed about them except what a lemma
    states explicitly in its precondition. Angles cross the interface in
    degrees, as in the source; `sinDeg` stands for `np.sin(np.radians(.))` and
    `asinDeg` for `np.degrees(np.arcsin(.))`. */
module Transcendental {
  import opened Statistics

  datatype Functions = Functions(
    sinDeg: real -> real,
    cosDeg: real -> real,
    tanDeg: real -> real,
    asinDeg: real -> real,
    ln: real -> real,
    exp: real -> real,
    pow: (real, real) -> real)

  /** The laws of the natural logarithm and exponential that the stiffness
      power-law fit relies on: ln turns products into sums and powers into
      multiples, is strictly increasing, and exp undoes it. */
  ghost predicate LogLaws(f: Functions) {
    && (forall x, y | 0.0 < x && 0.0 < y :: f.ln(Product(x, y)) == f.ln(x) + f.ln(y))
    && (forall x, e | 0.0 < x :: 0.0 < f.pow(x, e) && f.ln(f.pow(x, e)) == e * f.ln(x))
    && (forall x, y | 0.0 < x < y :: f.ln(x) < f.ln(y))
    && (forall x | 0.0 < x :: f.exp(f.ln(x)) == x)
  }

  /** The trigonometric facts the strength envelope relies on, for angles in
      degrees: sine undoes arcsine on [-1, 1], the cosine of an arcsine of a
      value strictly inside (-1, 1) is positive, and tan = sin / cos wherever
      the cosine does not vanish. */
  ghost predicate TrigLaws(f: Functions) {
    && (forall s | -1.0 <= s <= 1.0 :: f.sinDeg(f.asinDeg(s)) == s)
    && (forall s | -1.0 < s < 1.0 :: f.cosDeg(f.asinDeg(s)) > 0.0)
    && (forall x | f.cosDeg(x) != 0.0 :: f.tanDeg(x) * f.cosDeg(x) == f.sinDeg(x))
  }
}
