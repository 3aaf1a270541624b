/**
 * The backward differentiation (BDF) linear multistep ODE integrator.
 *
 * The integrator keeps a history matrix of 8 columns: column 0 is the state
 * being solved for, columns 1.. the past states, most recent first, and a
 * count of known past steps. An order-k step solves
 *   y[n] + sum_j alpha_j y[n-j] = T beta f(y[n], x)
 * by Newton's method from an explicit Euler guess, then shifts the history
 * one column to the right. Without enough history an order-k step first
 * runs an order-(k-1) step, recursively down to implicit Euler.
 *
 * The vector field f, its Jacobian, the QR linear solve and the vector norm
 * are parameters: this module states what the integrator does with them,
 * not how accurate they are.
 */
module Bdf {
  import opened Scalars
  import opened Vectors

  /** The history matrix always has 8 columns (room for order 6 plus one). */
  const Columns: nat := 8

  /** `BDFNewtonSolve` default residual tolerance. */
  const DefaultTolerance: real := 0.0000001

  /** `BDFNewtonSolve` default cap on Newton corrections. */
  const DefaultMaxIterations: int := 10

  /** `BDFNewtonConstants::incrementEps`: a Newton correction this small ends the loop. */
  function IncrementEps(p: Precision): real
  {
    match p
    case Single => 0.0000000001
    case Double => 0.000000000001
  }

  /** The model being integrated: `f.DyDt(y, x)` and `f.Jacobian(y, x)`. */
  datatype Ode = Ode(dydt: (Vec, real) -> Vec, jacobian: (Vec, real) -> Mat)

  /** `colPivHouseholderQr().solve` and `norm()`, as an oracle. */
  datatype LinearSolver = LinearSolver(solve: (Mat, Vec) -> Vec, norm: Vec -> real)

  /** The model maps Dim-vectors to Dim-vectors and Dim x Dim Jacobians (Eigen's fixed sizes). */
  ghost predicate OdeShaped(f: Ode, dim: nat)
  {
    forall y: Vec, x: real :: |y| == dim ==> |f.dydt(y, x)| == dim && IsSquare(f.jacobian(y, x), dim)
  }

  /** The linear solve returns a Dim-vector for a Dim right-hand side. */
  ghost predicate SolverShaped(la: LinearSolver, dim: nat)
  {
    forall m: Mat, v: Vec :: |v| == dim ==> |la.solve(m, v)| == dim
  }

  /** The history matrix: 8 columns of dimension Dim. */
  predicate HistoryShaped(h: seq<Vec>, dim: nat)
  {
    |h| == Columns && forall j :: 0 <= j < Columns ==> |h[j]| == dim
  }

  // ---------------------------------------------------------------------
  // The BDF formulas
  // ---------------------------------------------------------------------

  function Sum(cs: seq<real>): real
  {
    if |cs| == 0 then 0.0 else cs[0] + Sum(cs[1..])
  }

  /**
   * The history coefficients alpha_1..alpha_k of the order-k formula (the
   * `midTerm` weights of columns 1..k). Every order's weights sum to -1, so
   * a constant history is a solution whenever f vanishes there.
   */
  function Coefficients(order: nat): (cs: seq<real>)
    requires 1 <= order <= 6
    ensures |cs| == order
    ensures Sum(cs) == -1.0
  {
    match order
    case 1 => [-1.0]
    case 2 => [-4.0 / 3.0, 1.0 / 3.0]
    case 3 => [-18.0 / 11.0, 9.0 / 11.0, -2.0 / 11.0]
    case 4 => [-48.0 / 25.0, 36.0 / 25.0, -16.0 / 25.0, 3.0 / 25.0]
    case 5 => [-300.0 / 137.0, 300.0 / 137.0, -200.0 / 137.0, 75.0 / 137.0, -12.0 / 137.0]
    case 6 => [-360.0 / 147.0, 450.0 / 147.0, -400.0 / 147.0, 225.0 / 147.0, -72.0 / 147.0, 10.0 / 147.0]
  }

  /** The weight beta of T f(y[n], x) in the order-k formula (`rightCoeff`). */
  function RightCoeff(order: nat): real
    requires 1 <= order <= 6
  {
    match order
    case 1 => 1.0
    case 2 => 2.0 / 3.0
    case 3 => 6.0 / 11.0
    case 4 => 12.0 / 25.0
    case 5 => 60.0 / 137.0
    case 6 => 60.0 / 147.0
  }

  function Pow(b: real, m: nat): real
  {
    if m == 0 then 1.0 else b * Pow(b, m - 1)
  }

  /** sum_{j=1..k} alpha_j (-j)^m: the formula applied to t^m sampled at t = 0, -1, .., -k. */
  function Moment(cs: seq<real>, m: nat): real
  {
    MomentFrom(cs, m, 1)
  }

  /** sum_i cs[i] (-(j + i))^m: the weights of columns j, j+1, .. */
  function MomentFrom(cs: seq<real>, m: nat, j: nat): real
  {
    if |cs| == 0 then 0.0 else cs[0] * Pow(-(j as real), m) + MomentFrom(cs[1..], m, j + 1)
  }

  /**
   * The order conditions of a k-step BDF formula: it reproduces every
   * polynomial trajectory of degree at most k exactly. With t^m sampled
   * at unit steps, y[n] = 0^m and y'[n] = m 0^(m-1), so the weighted history
   * must equal -1 for m = 0, beta for m = 1 and 0 for 2 <= m <= k.
   */
  ghost predicate ExactForPolynomials(order: nat)
    requires 1 <= order <= 6
  {
    forall m: nat {:trigger Moment(Coefficients(order), m)} :: m <= order ==>
      Moment(Coefficients(order), m) == if m == 0 then -1.0 else if m == 1 then RightCoeff(order) else 0.0
  }

  /** Every order's coefficient table satisfies the BDF order conditions. */
  lemma CoefficientsExact(order: nat)
    requires 1 <= order <= 6
    ensures ExactForPolynomials(order)
  {
    forall m: nat | m <= order
      ensures Moment(Coefficients(order), m) == if m == 0 then -1.0 else if m == 1 then RightCoeff(order) else 0.0
    {
      MomentCase(order, m);
    }
  }

  lemma MomentCase(order: nat, m: nat)
    requires 1 <= order <= 6 && m <= order
    ensures Moment(Coefficients(order), m) == if m == 0 then -1.0 else if m == 1 then RightCoeff(order) else 0.0
  {
    match order
    case 1 => MomentsOrder1();
    case 2 => MomentsOrder2();
    case 3 => MomentsOrder3();
    case 4 => MomentsOrder4();
    case 5 => MomentsOrder5();
    case 6 => MomentsOrder6();
  }

  lemma MomentsOrder1()
    ensures Moment(Coefficients(1), 0) == -1.0
    ensures Moment(Coefficients(1), 1) == RightCoeff(1)
  {
  }

  lemma MomentsOrder2()
    ensures Moment(Coefficients(2), 0) == -1.0
    ensures Moment(Coefficients(2), 1) == RightCoeff(2)
    ensures Moment(Coefficients(2), 2) == 0.0
  {
  }

  lemma MomentsOrder3()
    ensures Moment(Coefficients(3), 0) == -1.0
    ensures Moment(Coefficients(3), 1) == RightCoeff(3)
    ensures Moment(Coefficients(3), 2) == 0.0
    ensures Moment(Coefficients(3), 3) == 0.0
  {
  }

  lemma MomentsOrder4()
    ensures Moment(Coefficients(4), 0) == -1.0
    ensures Moment(Coefficients(4), 1) == RightCoeff(4)
    ensures Moment(Coefficients(4), 2) == 0.0
    ensures Moment(Coefficients(4), 3) == 0.0
    ensures Moment(Coefficients(4), 4) == 0.0
  {
  }

  lemma MomentsOrder5()
    ensures Moment(Coefficients(5), 0) == -1.0
    ensures Moment(Coefficients(5), 1) == RightCoeff(5)
    ensures Moment(Coefficients(5), 2) == 0.0
    ensures Moment(Coefficients(5), 3) == 0.0
    ensures Moment(Coefficients(5), 4) == 0.0
    ensures Moment(Coefficients(5), 5) == 0.0
  {
  }

  lemma MomentsOrder6()
    ensures Moment(Coefficients(6), 0) == -1.0
    ensures Moment(Coefficients(6), 1) == RightCoeff(6)
    ensures Moment(Coefficients(6), 2) == 0.0
    ensures Moment(Coefficients(6), 3) == 0.0
    ensures Moment(Coefficients(6), 4) == 0.0
    ensures Moment(Coefficients(6), 5) == 0.0
    ensures Moment(Coefficients(6), 6) == 0.0
  {
  }

  /** alpha_1 col[0] + .. + alpha_k col[k-1]: the `midTerm` built from the history. */
  function Combine(cs: seq<real>, cols: seq<Vec>, dim: nat): (r: Vec)
    requires |cols| >= |cs|
    requires forall j :: 0 <= j < |cs| ==> |cols[j]| == dim
    ensures |r| == dim
  {
    if |cs| == 0 then Zero(dim) else Add(Scale(cs[0], cols[0]), Combine(cs[1..], cols[1..], dim))
  }

  /** A history whose columns all equal v combines to (sum of weights) v. */
  lemma {:induction false} CombineConstant(cs: seq<real>, cols: seq<Vec>, v: Vec)
    requires |cols| >= |cs|
    requires forall j :: 0 <= j < |cs| ==> cols[j] == v
    ensures Combine(cs, cols, |v|) == Scale(Sum(cs), v)
  {
    if |cs| > 0 {
      CombineConstant(cs[1..], cols[1..], v);
      var r := Combine(cs, cols, |v|);
      var s := Scale(Sum(cs), v);
      forall i | 0 <= i < |v| ensures r[i] == s[i] {
        assert r[i] == cs[0] * v[i] + Sum(cs[1..]) * v[i];
      }
      assert r == s;
    } else {
      forall i | 0 <= i < |v| ensures Zero(|v|)[i] == Scale(0.0, v)[i] {
      }
      assert Zero(|v|) == Scale(0.0, v);
    }
  }

  // ---------------------------------------------------------------------
  // Newton solve
  // ---------------------------------------------------------------------

  /**
   * One implicit equation Phi(Y) = Y + midTerm - T beta f(Y, x) = 0 and the
   * constants of its Newton solve.
   */
  datatype Equation = Equation(
    f: Ode, la: LinearSolver, dim: nat, x: real, mid: Vec, beta: real, T: real, tolerance: real, eps: real)
  {
    ghost predicate Valid()
    {
      OdeShaped(f, dim) && SolverShaped(la, dim) && |mid| == dim
    }
  }

  /** The residual Phi(y). */
  function Residual(q: Equation, y: Vec): (r: Vec)
    requires q.Valid() && |y| == q.dim
    ensures |r| == q.dim
  {
    Sub(Add(y, q.mid), Scale(q.T * q.beta, q.f.dydt(y, q.x)))
  }

  /** The Newton correction: the solution of (I - T beta J(y)) d = -Phi(y). */
  function Correction(q: Equation, y: Vec): (d: Vec)
    requires q.Valid() && |y| == q.dim
    ensures |d| == q.dim
  {
    q.la.solve(IdentityMinus(q.T * q.beta, q.f.jacobian(y, q.x), q.dim), Neg(Residual(q, y)))
  }

  /** The loop ends at y: the residual is within tolerance, or the correction is negligible. */
  predicate Stops(q: Equation, y: Vec)
    requires q.Valid() && |y| == q.dim
  {
    !(q.la.norm(Residual(q, y)) > q.tolerance) || q.la.norm(Correction(q, y)) <= q.eps
  }

  /**
   * The Newton loop with `remaining` corrections left: the final iterate and
   * the number of corrections applied. The loop runs out of corrections or
   * ends exactly where the stop test first holds.
   */
  function Newton(q: Equation, y: Vec, remaining: nat): (r: (Vec, nat))
    requires q.Valid() && |y| == q.dim
    ensures |r.0| == q.dim && r.1 <= remaining
    ensures r.1 < remaining ==> Stops(q, r.0)
    ensures r.1 == 0 <==> remaining == 0 || Stops(q, y)
    ensures r.1 == 0 ==> r.0 == y
    decreases remaining
  {
    if remaining == 0 || Stops(q, y) then (y, 0)
    else
      var next := Newton(q, Add(y, Correction(q, y)), remaining - 1);
      (next.0, next.1 + 1)
  }

  /** The explicit Euler guess from the last known state. */
  function EulerGuess(q: Equation, h: seq<Vec>): (y: Vec)
    requires q.Valid() && HistoryShaped(h, q.dim)
    ensures |y| == q.dim
  {
    Add(h[1], Scale(q.T, q.f.dydt(h[1], q.x)))
  }

  /**
   * `BDFNewtonSolve`: start from the Euler guess, apply at most
   * `maxIterations` corrections and store the last iterate in column 0; no
   * other column changes and the solve never fails. Returns the new history
   * and the number of corrections applied.
   */
  function NewtonSolve(q: Equation, h: seq<Vec>, maxIterations: int): (r: (seq<Vec>, nat))
    requires q.Valid() && HistoryShaped(h, q.dim)
    ensures HistoryShaped(r.0, q.dim)
    ensures r.0 == h[0 := r.0[0]]
    ensures r.1 <= (if maxIterations < 0 then 0 else maxIterations)
    ensures r.1 < maxIterations ==> Stops(q, r.0[0])
    ensures r.1 == 0 ==> r.0[0] == EulerGuess(q, h)
  {
    var solved := Newton(q, EulerGuess(q, h), if maxIterations < 0 then 0 else maxIterations);
    (h[0 := solved.0], solved.1)
  }

  // ---------------------------------------------------------------------
  // Steps and bootstrapping
  // ---------------------------------------------------------------------

  /** After the solve, columns 1..k+1 take the old columns 0..k (column 1 gets the new state). */
  function Shift(h: seq<Vec>, order: nat): (r: seq<Vec>)
    requires |h| == Columns && order + 1 < Columns
    ensures |r| == Columns
    ensures r[0] == h[0] && r[1] == h[0]
    ensures forall j :: 2 <= j <= order + 1 ==> r[j] == h[j - 1]
    ensures forall j :: order + 2 <= j < Columns ==> r[j] == h[j]
  {
    seq(Columns, j requires 0 <= j < Columns => if 1 <= j <= order + 1 then h[j - 1] else h[j])
  }

  /** The order-k equation for a given history. */
  function OrderEquation(f: Ode, la: LinearSolver, dim: nat, p: Precision, h: seq<Vec>, order: nat, T: real, x: real)
    : (q: Equation)
    requires 1 <= order <= 6 && HistoryShaped(h, dim) && OdeShaped(f, dim) && SolverShaped(la, dim)
    ensures q.Valid() && q.dim == dim
  {
    Equation(f, la, dim, x, Combine(Coefficients(order), h[1..], dim), RightCoeff(order), T,
      DefaultTolerance, IncrementEps(p))
  }

  /** The number of Newton solves an order-k step makes with `known` past steps. */
  function SolvesNeeded(order: nat, known: int): int
  {
    if known >= order then 1 else order - (if known < 1 then 1 else known) + 1
  }

  /**
   * `SubStep<k>::StepSolve`: for k >= 2 with fewer than k known steps,
   * first run an order-(k-1) step and record k known steps; then solve the order-k
   * equation and shift the history. Returns the history, the known-step
   * count and the number of Newton solves performed.
   */
  function SubStep(f: Ode, la: LinearSolver, dim: nat, p: Precision, order: nat, h: seq<Vec>, known: int, T: real, x: real)
    : (r: (seq<Vec>, int, nat))
    requires 1 <= order <= 6 && HistoryShaped(h, dim) && OdeShaped(f, dim) && SolverShaped(la, dim)
    ensures HistoryShaped(r.0, dim)
    ensures r.1 == if order == 1 || known >= order then known else order
    ensures r.2 == SolvesNeeded(order, known)
    ensures r.0[1] == r.0[0]
    ensures forall j :: order + 2 <= j < Columns ==> r.0[j] == h[j]
    ensures order == 1 || known >= order ==> forall j :: 2 <= j <= order + 1 ==> r.0[j] == h[j - 1]
    decreases order
  {
    var boot := if order >= 2 && known < order then
        var lower := SubStep(f, la, dim, p, order - 1, h, known, T, x);
        (lower.0, order, lower.2)
      else (h, known, 0);
    var solved := NewtonSolve(OrderEquation(f, la, dim, p, boot.0, order, T, x), boot.0, DefaultMaxIterations);
    (Shift(solved.0, order), boot.1, boot.2 + 1)
  }

  // ---------------------------------------------------------------------
  // The integrator object
  // ---------------------------------------------------------------------

  /**
   * `BDF<f, Scalar, Dim, Order>`: the order, the step size (None until the
   * sample rate is set, or when it was set to 0), the history and the
   * known-step count.
   */
  datatype Integrator = Integrator(order: nat, dim: nat, p: Precision, T: Option<real>, state: seq<Vec>, known: int)
  {
    predicate Valid()
    {
      1 <= order <= 6 && HistoryShaped(state, dim)
    }
  }

  /** The constructor: a zero history and no known steps. */
  function NewIntegrator(order: nat, dim: nat, p: Precision): (b: Integrator)
    requires 1 <= order <= 6
    ensures b.Valid() && b.known == 0 && b.T.None?
    ensures forall j :: 0 <= j < Columns ==> b.state[j] == Zero(dim)
  {
    Integrator(order, dim, p, None, seq(Columns, j => Zero(dim)), 0)
  }

  /** `SetSampleRate`: T = 1 / rate; nothing else changes. */
  function SetSampleRate(b: Integrator, rate: real): (r: Integrator)
    ensures r == b.(T := r.T)
    ensures r.T.Some? <==> rate != 0.0
    ensures r.T.Some? ==> r.T.value * rate == 1.0
  {
    b.(T := if rate == 0.0 then None else Some(1.0 / rate))
  }

  /**
   * `SetInitConditions`: every column is zeroed, the initial state is written
   * to columns 0 and 1, and one step is known.
   */
  function SetInitConditions(b: Integrator, init: Vec): (r: Integrator)
    requires b.Valid() && |init| == b.dim
    ensures r.Valid() && r == b.(state := r.state, known := 1)
    ensures r.state[0] == init && r.state[1] == init
    ensures forall j :: 2 <= j < Columns ==> r.state[j] == Zero(b.dim)
  {
    var state := seq(Columns, j requires 0 <= j < Columns => if j < 2 then init else Zero(b.dim));
    forall j | 0 <= j < Columns ensures |state[j]| == b.dim {
      if j >= 2 {
        assert state[j] == Zero(b.dim);
      }
    }
    b.(state := state, known := 1)
  }

  /** `CurrentState`: column 0. */
  function CurrentState(b: Integrator): (y: Vec)
    requires b.Valid()
    ensures |y| == b.dim && y == b.state[0]
  {
    b.state[0]
  }

  /**
   * `Step`: one order-k step with the integrator's step size. The step size
   * must have been set to a finite value first (the C++ reads an
   * uninitialised or infinite T otherwise).
   */
  function Step(b: Integrator, f: Ode, la: LinearSolver, x: real): (r: Integrator)
    requires b.Valid() && b.T.Some? && OdeShaped(f, b.dim) && SolverShaped(la, b.dim)
    ensures r.Valid() && r == b.(state := r.state, known := r.known)
    ensures r.known == if b.order == 1 || b.known >= b.order then b.known else b.order
    ensures CurrentState(r) == r.state[1]
    ensures forall j :: b.order + 2 <= j < Columns ==> r.state[j] == b.state[j]
  {
    var s := SubStep(f, la, b.dim, b.p, b.order, b.state, b.known, b.T.value, x);
    b.(state := s.0, known := s.1)
  }

  // ---------------------------------------------------------------------
  // Equilibria
  // ---------------------------------------------------------------------

  /** The norm of the zero vector is zero. */
  ghost predicate NormOfZero(la: LinearSolver, dim: nat)
  {
    la.norm(Zero(dim)) == 0.0
  }

  /**
   * A Newton solve whose last state c is an equilibrium (f(c, x) = 0) and
   * whose history weights cancel c (midTerm = -c) stores c: the Euler guess
   * is c, its residual is 0 and no correction runs.
   */
  lemma NewtonAtEquilibrium(q: Equation, h: seq<Vec>, c: Vec, maxIterations: int)
    requires q.Valid() && HistoryShaped(h, q.dim) && NormOfZero(q.la, q.dim) && q.tolerance >= 0.0
    requires h[1] == c && q.f.dydt(c, q.x) == Zero(q.dim) && q.mid == Neg(c)
    ensures NewtonSolve(q, h, maxIterations).0 == h[0 := c]
    ensures NewtonSolve(q, h, maxIterations).1 == 0
  {
    var y := EulerGuess(q, h);
    forall i | 0 <= i < q.dim ensures y[i] == c[i] {
      assert Scale(q.T, Zero(q.dim))[i] == 0.0;
    }
    assert y == c;
    var phi := Residual(q, c);
    forall i | 0 <= i < q.dim ensures phi[i] == 0.0 {
      assert Scale(q.T * q.beta, Zero(q.dim))[i] == 0.0;
      assert Add(c, q.mid)[i] == 0.0;
    }
    assert phi == Zero(q.dim);
  }

  /** A history whose columns all equal c. */
  predicate ConstantHistory(h: seq<Vec>, c: Vec)
  {
    |h| == Columns && forall j :: 0 <= j < Columns ==> h[j] == c
  }

  /**
   * An equilibrium history is reproduced exactly by a step of every order,
   * including its bootstrapping through the lower orders: this is where the
   * weights summing to -1 matter.
   */
  lemma {:induction false} SubStepAtEquilibrium(f: Ode, la: LinearSolver, p: Precision, order: nat, h: seq<Vec>,
                                               known: int, T: real, x: real, c: Vec)
    requires 1 <= order <= 6 && OdeShaped(f, |c|) && SolverShaped(la, |c|) && NormOfZero(la, |c|)
    requires ConstantHistory(h, c) && f.dydt(c, x) == Zero(|c|)
    ensures SubStep(f, la, |c|, p, order, h, known, T, x).0 == h
    decreases order
  {
    if order >= 2 && known < order {
      SubStepAtEquilibrium(f, la, p, order - 1, h, known, T, x, c);
    }
    SolveAtEquilibrium(f, la, p, order, h, T, x, c);
  }

  /** One order-k solve and shift from an equilibrium history gives the same history. */
  lemma SolveAtEquilibrium(f: Ode, la: LinearSolver, p: Precision, order: nat, h: seq<Vec>, T: real, x: real, c: Vec)
    requires 1 <= order <= 6 && OdeShaped(f, |c|) && SolverShaped(la, |c|) && NormOfZero(la, |c|)
    requires ConstantHistory(h, c) && f.dydt(c, x) == Zero(|c|)
    ensures Shift(NewtonSolve(OrderEquation(f, la, |c|, p, h, order, T, x), h, DefaultMaxIterations).0, order) == h
  {
    var dim := |c|;
    var q := OrderEquation(f, la, dim, p, h, order, T, x);
    CombineConstant(Coefficients(order), h[1..], c);
    forall i | 0 <= i < dim ensures q.mid[i] == Neg(c)[i] {
      assert q.mid[i] == Scale(-1.0, c)[i];
    }
    assert q.mid == Neg(c);
    NewtonAtEquilibrium(q, h, c, DefaultMaxIterations);
    assert h[0 := c] == h;
    assert Shift(h, order) == h;
  }
}
