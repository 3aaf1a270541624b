/**
 * Scalar conventions shared by every component of the simulation engine:
 * the floating-point precision a template is instantiated with, the
 * elementary functions the C++ code takes from <cmath>, clamping, and a
 * small Option type.
 *
 * Floating point is modelled by `real`; rounding is not modelled.
 */
module Scalars {

  /** The PI macro of the filter header, as an exact decimal. */
  const PI: real := 3.1415926535897932384626433832795028841971693993751058209749445923078164062

  /** The `Scalar`/`Float` template argument: some constants depend on it. */
  datatype Precision = Single | Double

  datatype Option<+T> = None | Some(value: T)

  /**
   * The transcendental functions the code calls. They are uninterpreted:
   * a property that needs a fact about one of them states that fact as a
   * requirement on this record (see the predicates below).
   * `logCosh` stands for log(cosh(.)); the code only ever evaluates
   * log(cosh a / cosh b), which equals logCosh(a) - logCosh(b) because
   * cosh is positive.
   */
  datatype Elementary = Elementary(
    tanh: real -> real,
    logCosh: real -> real,
    tan: real -> real,
    exp: real -> real,
    log: real -> real,
    sqrt: real -> real)

  /** tanh(0) = 0 */
  predicate TanhZero(e: Elementary)
  {
    e.tanh(0.0) == 0.0
  }

  /** log(cosh a) is smallest at a = 0 (cosh a >= cosh 0 = 1). */
  ghost predicate LogCoshMinimalAtZero(e: Elementary)
  {
    forall a: real :: e.logCosh(0.0) <= e.logCosh(a)
  }

  /** -1 <= tanh a <= 1 */
  ghost predicate TanhBounded(e: Elementary)
  {
    forall a: real :: -1.0 <= e.tanh(a) <= 1.0
  }

  /** exp and log are mutually inverse on their domains, exp is positive and log 2 > 0. */
  ghost predicate ExpLogInverse(e: Elementary)
  {
    && (forall a: real :: e.exp(a) > 0.0)
    && (forall a: real :: e.log(e.exp(a)) == a)
    && (forall v: real :: v > 0.0 ==> e.exp(e.log(v)) == v)
    && e.log(2.0) > 0.0
  }

  /** sqrt(5) is the non-negative square root of 5. */
  predicate SqrtOfFive(e: Elementary)
  {
    e.sqrt(5.0) >= 0.0 && e.sqrt(5.0) * e.sqrt(5.0) == 5.0
  }

  function Abs(x: real): real
  {
    if x < 0.0 then -x else x
  }

  /** std::max(a, b), which returns a unless a < b. */
  function Max(a: real, b: real): (r: real)
    ensures r >= a && r >= b
    ensures r == a || r == b
  {
    if a < b then b else a
  }

  /** std::min(a, b), which returns a unless b < a. */
  function Min(a: real, b: real): (r: real)
    ensures r <= a && r <= b
    ensures r == a || r == b
  {
    if b < a then b else a
  }

  /** max(min(v, bound), -bound): the symmetric clamp the oscillator applies to its state. */
  function ClampSymmetric(v: real, bound: real): (r: real)
    requires bound >= 0.0
    ensures -bound <= r <= bound
    ensures -bound <= v <= bound ==> r == v
  {
    Max(Min(v, bound), -bound)
  }
}
