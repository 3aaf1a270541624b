/**
 * The forced Van der Pol oscillator in first-order form, y = (position,
 * velocity):
 *   y0' = y1
 *   y1' = mu (1 - y0^2) y1 w + w^2 (x - y0)
 * with damping mu, angular frequency w and forcing input x.
 */
module VanDerPol {
  import opened Scalars
  import opened Vectors
  import Bdf

  /** `_mu` and `_w`. */
  datatype VanDerPol = VanDerPol(mu: real, w: real)

  /** The default parameters: mu = 0.1 and w = 2 pi 200 rad/s. */
  const Default: VanDerPol := VanDerPol(0.1, 200.0 * 2.0 * PI)

  /** `DyDt` at the state (y0, y1) with forcing x. */
  function DyDt(v: VanDerPol, y0: real, y1: real, x: real): (d: Vec)
    ensures |d| == 2 && d[0] == y1
  {
    [y1, v.mu * (1.0 - y0 * y0) * y1 * v.w + v.w * v.w * (x - y0)]
  }

  /** `Jacobian` at the state (y0, y1), row-major; the forcing does not enter it. */
  function Jacobian(v: VanDerPol, y0: real, y1: real, x: real): (j: Mat)
    ensures IsSquare(j, 2)
    ensures j[0] == [0.0, 1.0]
  {
    [[0.0, 1.0], [-2.0 * v.mu * y0 * y1 * v.w - v.w * v.w, v.mu * (1.0 - y0 * y0) * v.w]]
  }

  /** The model as seen by the integrator (Dim = 2). */
  function AsOde(v: VanDerPol): (f: Bdf.Ode)
    ensures Bdf.OdeShaped(f, 2)
  {
    Bdf.Ode(
      (y: Vec, x: real) => if |y| == 2 then DyDt(v, y[0], y[1], x) else Zero(|y|),
      (y: Vec, x: real) => if |y| == 2 then Jacobian(v, y[0], y[1], x) else seq(|y|, i => Zero(|y|)))
  }

  /** The resting state at the forcing level, (x, 0), is an equilibrium for every mu and w. */
  lemma Equilibrium(v: VanDerPol, x: real)
    ensures DyDt(v, x, 0.0, x) == [0.0, 0.0]
    ensures AsOde(v).dydt([x, 0.0], x) == Zero(2)
  {
    assert Zero(2) == [0.0, 0.0];
  }

  /** Every equilibrium is of that form: zero velocity and position equal to the input, when w != 0. */
  lemma EquilibriaAreRest(v: VanDerPol, y0: real, y1: real, x: real)
    requires v.w != 0.0
    requires DyDt(v, y0, y1, x) == [0.0, 0.0]
    ensures y1 == 0.0 && y0 == x
  {
    var d := DyDt(v, y0, y1, x);
    assert d[0] == 0.0;
    assert v.w * (v.w * (x - y0)) == 0.0;
    ProductZero(v.w, v.w * (x - y0));
    ProductZero(v.w, x - y0);
  }

  lemma ProductZero(k: real, a: real)
    requires k != 0.0
    requires k * a == 0.0
    ensures a == 0.0
  {
    assert a == (k * a) / k;
  }

  /**
   * The Jacobian is the derivative of DyDt. Along the velocity the vector
   * field is linear, with slope the Jacobian's column 1.
   */
  lemma JacobianVelocityColumn(v: VanDerPol, y0: real, y1: real, x: real, h: real)
    ensures DyDt(v, y0, y1 + h, x)[0] == DyDt(v, y0, y1, x)[0] + h * Jacobian(v, y0, y1, x)[0][1]
    ensures DyDt(v, y0, y1 + h, x)[1] == DyDt(v, y0, y1, x)[1] + h * Jacobian(v, y0, y1, x)[1][1]
  {
    Distribute(v.mu * (1.0 - y0 * y0), y1, h, v.w);
  }

  lemma Distribute(c: real, p: real, q: real, w: real)
    ensures c * (p + q) * w == c * p * w + q * (c * w)
  {
  }

  /**
   * Along the position the vector field moves by h times the Jacobian's
   * column 0, up to the h^2 term of the y0^2 damping.
   */
  lemma JacobianPositionColumn(v: VanDerPol, y0: real, y1: real, x: real, h: real)
    ensures DyDt(v, y0 + h, y1, x)[0] == DyDt(v, y0, y1, x)[0] + h * Jacobian(v, y0, y1, x)[0][0]
    ensures DyDt(v, y0 + h, y1, x)[1]
      == DyDt(v, y0, y1, x)[1] + h * Jacobian(v, y0, y1, x)[1][0] - h * h * (v.mu * y1 * v.w)
  {
    DampingExpansion(v.mu, v.w, y0, y1, h);
    ForcingExpansion(v.w * v.w, x, y0, h);
  }

  lemma DampingExpansion(mu: real, w: real, y0: real, y1: real, h: real)
    ensures mu * (1.0 - (y0 + h) * (y0 + h)) * y1 * w
      == mu * (1.0 - y0 * y0) * y1 * w + h * (-2.0 * mu * y0 * y1 * w) - h * h * (mu * y1 * w)
  {
    var c := mu * y1 * w;
    assert mu * (1.0 - (y0 + h) * (y0 + h)) * y1 * w == c * (1.0 - (y0 + h) * (y0 + h));
    assert mu * (1.0 - y0 * y0) * y1 * w == c * (1.0 - y0 * y0);
    assert -2.0 * mu * y0 * y1 * w == -2.0 * y0 * c;
  }

  lemma ForcingExpansion(k: real, x: real, y0: real, h: real)
    ensures k * (x - (y0 + h)) == k * (x - y0) + h * (-k)
  {
  }

  /** The Jacobian does not depend on the forcing input. */
  lemma JacobianIgnoresInput(v: VanDerPol, y0: real, y1: real, x: real, x': real)
    ensures Jacobian(v, y0, y1, x) == Jacobian(v, y0, y1, x')
  {
  }
}
