/**
 * The small linear filters of the tfdsp library and its OTA-saturated
 * zero-delay-feedback low-pass. Each filter is a record of its state with a
 * pure per-sample step; the cutoff prewarp uses the uninterpreted tan, and
 * a division the C++ would turn into inf or NaN yields None.
 */
module Filters {
  import opened Scalars

  // ---------------------------------------------------------------------
  // One-sample delay
  // ---------------------------------------------------------------------

  /** `OneSampleDelay`: the previous input, 0 before the first call. */
  datatype OneSampleDelay = OneSampleDelay(s1: real)

  const NewDelay: OneSampleDelay := OneSampleDelay(0.0)

  /** `operator()`: return the stored sample and store the input. */
  function DelayProcess(d: OneSampleDelay, x: real): (r: (real, OneSampleDelay))
  {
    (d.s1, OneSampleDelay(x))
  }

  /** The delay run over a stream, one call per sample. */
  function DelayRun(d: OneSampleDelay, xs: seq<real>): (r: (seq<real>, OneSampleDelay))
    ensures |r.0| == |xs|
    decreases |xs|
  {
    if |xs| == 0 then ([], d)
    else
      var first := DelayProcess(d, xs[0]);
      var rest := DelayRun(first.1, xs[1..]);
      ([first.0] + rest.0, rest.1)
  }

  /**
   * Over any stream the delay outputs the stored sample followed by the
   * stream without its last sample, and ends holding that last sample.
   */
  lemma {:induction false} DelayStream(d: OneSampleDelay, xs: seq<real>)
    requires |xs| > 0
    ensures DelayRun(d, xs).0 == [d.s1] + xs[..|xs| - 1]
    ensures DelayRun(d, xs).1 == OneSampleDelay(xs[|xs| - 1])
    decreases |xs|
  {
    if |xs| > 1 {
      DelayStream(OneSampleDelay(xs[0]), xs[1..]);
      assert [xs[0]] + xs[1..][..|xs| - 2] == xs[..|xs| - 1];
    }
  }

  /** A new delay outputs 0 first and then each input one sample late. */
  lemma NewDelayStream(xs: seq<real>)
    requires |xs| > 0
    ensures DelayRun(NewDelay, xs).0 == [0.0] + xs[..|xs| - 1]
  {
    DelayStream(NewDelay, xs);
  }

  // ---------------------------------------------------------------------
  // First-order all-pass, H(z) = (a + z^-1) / (1 + a z^-1)
  // ---------------------------------------------------------------------

  /** `FirstOrderAllPass`: the coefficient and the internal state, initially 0. */
  datatype FirstOrderAllPass = FirstOrderAllPass(a: real, s1: real)

  function NewAllPass(coeff: real): (f: FirstOrderAllPass)
    ensures f.a == coeff && f.s1 == 0.0
  {
    FirstOrderAllPass(coeff, 0.0)
  }

  /** `operator()`: s = x - a s1, y = a s + s1, then s1 := s. */
  function AllPassProcess(f: FirstOrderAllPass, x: real): (r: (real, FirstOrderAllPass))
    ensures r.1.a == f.a
  {
    var s := x - f.a * f.s1;
    (f.a * s + f.s1, f.(s1 := s))
  }

  /**
   * Two consecutive samples obey the difference equation of the transfer
   * function, y[n] + a y[n-1] = a x[n] + x[n-1], from any state.
   */
  lemma AllPassDifferenceEquation(f: FirstOrderAllPass, x1: real, x2: real)
    ensures var p1 := AllPassProcess(f, x1);
      var p2 := AllPassProcess(p1.1, x2);
      p2.0 + f.a * p1.0 == f.a * x2 + x1
  {
    var a := f.a;
    var s1 := x1 - a * f.s1;
    var s2 := x2 - a * s1;
    AllPassAlgebra(a, f.s1, s1, s2);
  }

  lemma AllPassAlgebra(a: real, s0: real, s1: real, s2: real)
    ensures (a * s2 + s1) + a * (a * s1 + s0) == a * (s2 + a * s1) + (s1 + a * s0)
  {
    assert a * (a * s1 + s0) == a * a * s1 + a * s0;
    assert a * (s2 + a * s1) == a * s2 + a * a * s1;
  }

  /**
   * DC fixed point: with input c and state c / (1 + a) the all-pass returns
   * c and keeps its state (unity gain at DC).
   */
  lemma AllPassDcFixedPoint(a: real, c: real)
    requires 1.0 + a != 0.0
    ensures AllPassProcess(FirstOrderAllPass(a, c / (1.0 + a)), c) == (c, FirstOrderAllPass(a, c / (1.0 + a)))
  {
    var s1 := c / (1.0 + a);
    assert s1 * (1.0 + a) == c;
    DcAlgebra(a, c, s1);
    var f := FirstOrderAllPass(a, s1);
    var s := c - a * s1;
    assert a * s == a * s1;
    assert AllPassProcess(f, c).0 == c;
    assert AllPassProcess(f, c).1 == f;
  }

  lemma DcAlgebra(a: real, c: real, s: real)
    requires s * (1.0 + a) == c
    ensures c - a * s == s && a * (c - a * s) + s == c
  {
  }

  // ---------------------------------------------------------------------
  // Second-order biquad, transposed direct form II
  // ---------------------------------------------------------------------

  /** `SecondOrderBiquad`: normalised coefficients and the two states. */
  datatype Biquad = Biquad(a: seq<real>, b: seq<real>, s1: real, s2: real)
  {
    predicate Valid()
    {
      |a| == 3 && |b| == 3
    }
  }

  /**
   * The constructor divides every coefficient by a[0]; with a[0] = 0 the
   * C++ would store inf or NaN, here it yields None.
   */
  function NewBiquad(a: seq<real>, b: seq<real>): (r: Option<Biquad>)
    requires |a| == 3 && |b| == 3
    ensures r.Some? <==> a[0] != 0.0
    ensures r.Some? ==> r.value.Valid() && r.value.a[0] == 1.0 && r.value.s1 == 0.0 && r.value.s2 == 0.0
    ensures r.Some? ==> forall i :: 0 <= i < 3 ==> r.value.a[i] * a[0] == a[i] && r.value.b[i] * a[0] == b[i]
  {
    if a[0] == 0.0 then None
    else Some(Biquad([a[0] / a[0], a[1] / a[0], a[2] / a[0]], [b[0] / a[0], b[1] / a[0], b[2] / a[0]], 0.0, 0.0))
  }

  /** `operator()`: y = b0 x + s1, s1 := -a1 y + b1 x + s2, s2 := -a2 y + b2 x. */
  function BiquadProcess(f: Biquad, x: real): (r: (real, Biquad))
    requires f.Valid()
    ensures r.1.Valid() && r.1.a == f.a && r.1.b == f.b
  {
    var y := f.b[0] * x + f.s1;
    (y, f.(s1 := -f.a[1] * y + f.b[1] * x + f.s2, s2 := -f.a[2] * y + f.b[2] * x))
  }

  /** Zero in with zero state gives zero out and keeps the state zero. */
  lemma BiquadSilence(f: Biquad)
    requires f.Valid() && f.s1 == 0.0 && f.s2 == 0.0
    ensures BiquadProcess(f, 0.0) == (0.0, f)
  {
    assert f.b[0] * 0.0 == 0.0 && -f.a[1] * 0.0 == 0.0 && f.b[1] * 0.0 == 0.0;
    assert -f.a[2] * 0.0 == 0.0 && f.b[2] * 0.0 == 0.0;
  }

  /**
   * From any state, the third of three consecutive samples obeys the
   * difference equation y[n] = b0 x[n] + b1 x[n-1] + b2 x[n-2]
   * - a1 y[n-1] - a2 y[n-2] of the normalised coefficients.
   */
  lemma BiquadDifferenceEquation(f: Biquad, x1: real, x2: real, x3: real)
    requires f.Valid()
    ensures var p1 := BiquadProcess(f, x1);
      var p2 := BiquadProcess(p1.1, x2);
      var p3 := BiquadProcess(p2.1, x3);
      p3.0 == f.b[0] * x3 + f.b[1] * x2 + f.b[2] * x1 - f.a[1] * p2.0 - f.a[2] * p1.0
  {
    var p1 := BiquadProcess(f, x1);
    var p2 := BiquadProcess(p1.1, x2);
    assert p1.1.s2 == -f.a[2] * p1.0 + f.b[2] * x1;
    assert p2.1.s1 == -f.a[1] * p2.0 + f.b[1] * x2 + p1.1.s2;
  }

  /**
   * A biquad built from (a, b) realises the transfer function
   * (b0 + b1 z^-1 + b2 z^-2) / (a0 + a1 z^-1 + a2 z^-2) of the
   * unnormalised coefficients: a0 y[n] + a1 y[n-1] + a2 y[n-2]
   * = b0 x[n] + b1 x[n-1] + b2 x[n-2].
   */
  lemma BiquadRealisesTransfer(a: seq<real>, b: seq<real>, x1: real, x2: real, x3: real)
    requires |a| == 3 && |b| == 3 && a[0] != 0.0
    ensures var f := NewBiquad(a, b).value;
      var p1 := BiquadProcess(f, x1);
      var p2 := BiquadProcess(p1.1, x2);
      var p3 := BiquadProcess(p2.1, x3);
      a[0] * p3.0 + a[1] * p2.0 + a[2] * p1.0 == b[0] * x3 + b[1] * x2 + b[2] * x1
  {
    var f := NewBiquad(a, b).value;
    var p1 := BiquadProcess(f, x1);
    var p2 := BiquadProcess(p1.1, x2);
    var p3 := BiquadProcess(p2.1, x3);
    BiquadDifferenceEquation(f, x1, x2, x3);
    assert f.a[1] * a[0] == a[1] && f.a[2] * a[0] == a[2];
    assert f.b[0] * a[0] == b[0] && f.b[1] * a[0] == b[1] && f.b[2] * a[0] == b[2];
    ScaleEquation(a[0], p3.0, f.b[0], x3, f.b[1], x2, f.b[2], x1, f.a[1], p2.0, f.a[2], p1.0, a[1], a[2], b[0], b[1], b[2]);
  }

  lemma ScaleEquation(k: real, y: real, b0: real, x3: real, b1: real, x2: real, b2: real, x1: real,
                      a1: real, y2: real, a2: real, y1: real,
                      A1: real, A2: real, B0: real, B1: real, B2: real)
    requires y == b0 * x3 + b1 * x2 + b2 * x1 - a1 * y2 - a2 * y1
    requires A1 == a1 * k && A2 == a2 * k && B0 == b0 * k && B1 == b1 * k && B2 == b2 * k
    ensures k * y + A1 * y2 + A2 * y1 == B0 * x3 + B1 * x2 + B2 * x1
  {
    assert k * y == k * (b0 * x3) + k * (b1 * x2) + k * (b2 * x1) - k * (a1 * y2) - k * (a2 * y1);
  }

  // ---------------------------------------------------------------------
  // Zero-delay-feedback first-order low-pass and high-pass
  // ---------------------------------------------------------------------

  /** The prewarped integrator gain of the ZDF filters, g = tan(pi/2 fc), fc relative to Nyquist. */
  function ZdfGain(e: Elementary, fc: real): real
  {
    e.tan(PI / 2.0 * fc)
  }

  /** `FirstOrderLowPassZdf`: the integrator state, initially 0. */
  datatype LowPassZdf = LowPassZdf(s1: real)

  /** `FirstOrderHighPassZdf`: the integrator state, initially 0. */
  datatype HighPassZdf = HighPassZdf(s1: real)

  /**
   * The low-pass step: v = (x - s1) g / (1 + g), y = v + s1, s1 := y + v.
   * The output solves the zero-delay feedback loop y = s1 + g (x - y)
   * exactly, and the state moves by the trapezoidal rule to 2y - s1.
   */
  function LowPassProcess(e: Elementary, f: LowPassZdf, x: real, fc: real): (r: Option<(real, LowPassZdf)>)
    ensures r.Some? <==> 1.0 + ZdfGain(e, fc) != 0.0
    ensures r.Some? ==> r.value.0 == f.s1 + ZdfGain(e, fc) * (x - r.value.0)
    ensures r.Some? ==> r.value.1 == LowPassZdf(2.0 * r.value.0 - f.s1)
  {
    var g := ZdfGain(e, fc);
    if 1.0 + g == 0.0 then None
    else
      var v := (x - f.s1) * g / (1.0 + g);
      var y := v + f.s1;
      LowPassLoop(x, f.s1, g);
      Some((y, LowPassZdf(y + v)))
  }

  lemma LowPassLoop(x: real, s: real, g: real)
    requires 1.0 + g != 0.0
    ensures (x - s) * g / (1.0 + g) + s == s + g * (x - ((x - s) * g / (1.0 + g) + s))
  {
    var v := (x - s) * g / (1.0 + g);
    assert v * (1.0 + g) == (x - s) * g;
  }

  /**
   * The high-pass step: y = (x - s1) / (1 + g), s1 := s1 + 2 g y. The
   * output solves y = x - (s1 + g y): the input minus the integrator's
   * output.
   */
  function HighPassProcess(e: Elementary, f: HighPassZdf, x: real, fc: real): (r: Option<(real, HighPassZdf)>)
    ensures r.Some? <==> 1.0 + ZdfGain(e, fc) != 0.0
    ensures r.Some? ==> r.value.0 == x - (f.s1 + ZdfGain(e, fc) * r.value.0)
    ensures r.Some? ==> r.value.1 == HighPassZdf(f.s1 + 2.0 * ZdfGain(e, fc) * r.value.0)
  {
    var g := ZdfGain(e, fc);
    if 1.0 + g == 0.0 then None
    else
      var y := (x - f.s1) / (1.0 + g);
      assert y * (1.0 + g) == x - f.s1;
      Some((y, HighPassZdf(f.s1 + y * 2.0 * g)))
  }

  /** Input equal to the state: the low-pass passes it and keeps its state, for every cutoff. */
  lemma LowPassDcFixedPoint(e: Elementary, c: real, fc: real)
    requires 1.0 + ZdfGain(e, fc) != 0.0
    ensures LowPassProcess(e, LowPassZdf(c), c, fc) == Some((c, LowPassZdf(c)))
  {
    var y := LowPassProcess(e, LowPassZdf(c), c, fc).value.0;
    LoopFixedPoint(ZdfGain(e, fc), c, y);
  }

  lemma LoopFixedPoint(g: real, c: real, y: real)
    requires 1.0 + g != 0.0 && y == c + g * (c - y)
    ensures y == c
  {
    assert (y - c) * (1.0 + g) == y - c + g * (y - c);
    assert g * (y - c) == -(g * (c - y));
    assert (y - c) * (1.0 + g) == 0.0 * (1.0 + g);
    ProductCancel(1.0 + g, y - c, 0.0);
  }

  /** Input equal to the state: the high-pass outputs 0 and keeps its state, for every cutoff. */
  lemma HighPassDcFixedPoint(e: Elementary, c: real, fc: real)
    requires 1.0 + ZdfGain(e, fc) != 0.0
    ensures HighPassProcess(e, HighPassZdf(c), c, fc) == Some((0.0, HighPassZdf(c)))
  {
    var f := HighPassZdf(c);
    var r := HighPassProcess(e, f, c, fc);
    HighPassLoopAtRest(c, f.s1, ZdfGain(e, fc), r.value.0);
  }

  lemma HighPassLoopAtRest(x: real, s: real, g: real, y: real)
    requires 1.0 + g != 0.0 && x == s && y == x - (s + g * y)
    ensures y == 0.0 && s + 2.0 * g * y == s
  {
    assert y * (1.0 + g) == y + g * y;
    assert y * (1.0 + g) == 0.0 * (1.0 + g);
    ProductCancel(1.0 + g, y, 0.0);
  }

  /**
   * The two ZDF filters are complementary: from the same state and cutoff
   * their outputs sum to the input and their states move identically.
   */
  lemma ZdfComplementary(e: Elementary, s: real, x: real, fc: real)
    requires 1.0 + ZdfGain(e, fc) != 0.0
    ensures var lp := LowPassProcess(e, LowPassZdf(s), x, fc).value;
      var hp := HighPassProcess(e, HighPassZdf(s), x, fc).value;
      lp.0 + hp.0 == x && lp.1.s1 == hp.1.s1
  {
    var g := ZdfGain(e, fc);
    var lp := LowPassProcess(e, LowPassZdf(s), x, fc).value;
    var hp := HighPassProcess(e, HighPassZdf(s), x, fc).value;
    Complementary(x, s, g, lp.0, hp.0);
  }

  lemma Complementary(x: real, s: real, g: real, l: real, h: real)
    requires 1.0 + g != 0.0
    requires l == s + g * (x - l) && h == x - (s + g * h)
    ensures l + h == x && 2.0 * l - s == s + 2.0 * g * h
  {
    assert (l - s) * (1.0 + g) == g * (x - s);
    assert h * (1.0 + g) == x - s;
    ProductCancel(1.0 + g, l - s, g * h);
  }

  lemma ProductCancel(k: real, p: real, q: real)
    requires k != 0.0 && p * k == q * k
    ensures p == q
  {
    assert p == (p * k) / k;
  }

  // ---------------------------------------------------------------------
  // OTA-saturated ZDF low-pass with a fixed number of Newton iterations
  // ---------------------------------------------------------------------

  /**
   * `OTAFirstOrderLowPass<iterations>`: the integrator state `_s1` and the
   * member `_u1`, which the filter declares but never reads or writes.
   */
  datatype OtaLowPass = OtaLowPass(s1: real, u1: real)

  /** The residual of the loop equation u = x - s1 - g tanh(u). */
  function OtaResidual(e: Elementary, g: real, x: real, s1: real, u: real): real
  {
    u + g * e.tanh(u) - x + s1
  }

  /** One Newton update; None when the derivative 1 + g (1 - tanh^2 u) is 0. */
  function NewtonUpdate(e: Elementary, g: real, x: real, s1: real, u: real): (r: Option<real>)
    ensures r.Some? <==> 1.0 + g * (1.0 - e.tanh(u) * e.tanh(u)) != 0.0
    ensures r.Some? && OtaResidual(e, g, x, s1, u) == 0.0 ==> r.value == u
  {
    var t := e.tanh(u);
    var d := 1.0 + g * (1.0 - t * t);
    if d == 0.0 then None else Some(u - (u + g * t - x + s1) / d)
  }

  /** `n` Newton updates from u, the reference for the filter's loop. */
  function Newton(e: Elementary, g: real, x: real, s1: real, u: real, n: nat): (r: Option<real>)
    ensures n == 0 ==> r == Some(u)
    decreases n
  {
    if n == 0 then Some(u)
    else
      match NewtonUpdate(e, g, x, s1, u)
      case None => None
      case Some(u') => Newton(e, g, x, s1, u', n - 1)
  }

  /** The filter's gain, g = 2 tan(pi/2 fc). */
  function OtaGain(e: Elementary, fc: real): real
  {
    2.0 * e.tan(PI / 2.0 * fc)
  }

  /**
   * `operator()`: the linearised guess (x - s1) / (1 + g), exactly
   * `iterations` Newton updates, then v = g tanh(u), y = v + s1 and
   * s1 := y + v. The loop counts its updates.
   */
  method OtaLowPassProcess(e: Elementary, f: OtaLowPass, x: real, fc: real, iterations: nat)
    returns (r: Option<(real, OtaLowPass)>, updates: nat)
    ensures 1.0 + OtaGain(e, fc) == 0.0 ==> r.None? && updates == 0
    ensures 1.0 + OtaGain(e, fc) != 0.0 ==>
      var u := Newton(e, OtaGain(e, fc), x, f.s1, OtaGuess(OtaGain(e, fc), x, f.s1), iterations);
      && (r.Some? <==> u.Some?)
      && (r.Some? ==> updates == iterations && r.value == OtaOutput(e, OtaGain(e, fc), f, u.value))
  {
    var g := OtaGain(e, fc);
    updates := 0;
    if 1.0 + g == 0.0 {
      return None, 0;
    }
    var u := OtaGuess(g, x, f.s1);
    var i: nat := 0;
    while i < iterations
      invariant i <= iterations && updates == i
      invariant Newton(e, g, x, f.s1, OtaGuess(g, x, f.s1), iterations) == Newton(e, g, x, f.s1, u, iterations - i)
    {
      var next := NewtonUpdate(e, g, x, f.s1, u);
      if next.None? {
        return None, updates;
      }
      u := next.value;
      i := i + 1;
      updates := updates + 1;
    }
    r := Some(OtaOutput(e, g, f, u));
  }

  /** The linearised first guess (x - s1) / (1 + g). */
  function OtaGuess(g: real, x: real, s1: real): (u: real)
    requires 1.0 + g != 0.0
    ensures u + g * u - x + s1 == 0.0
  {
    var u := (x - s1) / (1.0 + g);
    assert u * (1.0 + g) == x - s1;
    u
  }

  /** The filter's output and state from the final iterate: v = g tanh(u), y = v + s1, s1 := y + v. */
  function OtaOutput(e: Elementary, g: real, f: OtaLowPass, u: real): (r: (real, OtaLowPass))
    ensures r.1.u1 == f.u1 && r.1.s1 == 2.0 * r.0 - f.s1
  {
    var v := g * e.tanh(u);
    var y := v + f.s1;
    (y, OtaLowPass(y + v, f.u1))
  }

  /** Newton leaves an exact root where it is, however many updates run. */
  lemma {:induction false} NewtonAtRoot(e: Elementary, g: real, x: real, s1: real, u: real, n: nat)
    requires OtaResidual(e, g, x, s1, u) == 0.0
    requires 1.0 + g * (1.0 - e.tanh(u) * e.tanh(u)) != 0.0
    ensures Newton(e, g, x, s1, u, n) == Some(u)
    decreases n
  {
    if n > 0 {
      NewtonAtRoot(e, g, x, s1, u, n - 1);
    }
  }

  /**
   * Input equal to the state: the guess is the exact root 0, the output is
   * the input and the state is kept, for any cutoff and iteration count.
   */
  lemma OtaLowPassDcFixedPoint(e: Elementary, c: real, u1: real, fc: real, n: nat)
    requires TanhZero(e) && 1.0 + OtaGain(e, fc) != 0.0
    ensures Newton(e, OtaGain(e, fc), c, c, OtaGuess(OtaGain(e, fc), c, c), n) == Some(0.0)
    ensures OtaOutput(e, OtaGain(e, fc), OtaLowPass(c, u1), 0.0) == (c, OtaLowPass(c, u1))
  {
    var g := OtaGain(e, fc);
    var u := OtaGuess(g, c, c);
    assert u * (1.0 + g) == 0.0 * (1.0 + g);
    ProductCancel(1.0 + g, u, 0.0);
    NewtonAtRoot(e, g, c, c, 0.0, n);
    assert g * e.tanh(0.0) == 0.0;
  }

  /**
   * When the last iterate is an exact root, the output solves the
   * nonlinear zero-delay feedback loop y = s1 + g tanh(x - y).
   */
  lemma OtaLowPassSolvesLoop(e: Elementary, g: real, x: real, s1: real, u: real)
    requires OtaResidual(e, g, x, s1, u) == 0.0
    ensures var y := g * e.tanh(u) + s1;
      y == s1 + g * e.tanh(x - y)
  {
    var y := g * e.tanh(u) + s1;
    assert x - y == u;
  }
}
