/**
 * The Van der Pol oscillator module's engine: the forced Van der Pol
 * system integrated by BDF at an oversampled rate, with the parameters and
 * the state clamped on every tick to keep an unstable integration bounded.
 * Input, damping and frequency are each upsampled by their own resampler;
 * the ticks' positions are downsampled with the input's resampler.
 */
module VdpOscillator {
  import opened Scalars
  import opened Vectors
  import Bdf
  import opened VanDerPol
  import opened Resampling

  /** Highest angular frequency, about C8 on a piano. */
  const MaxAngularFreq: real := 2.0 * PI * 4200.0

  /** Bound on the position (and, times twice the rate, on the velocity). */
  const MaxOutput: real := 12.0

  /** Lower clamps of the damping and the angular frequency. */
  const MinMu: real := 0.00000001
  const MinW: real := 0.0001

  /** The initial state (position 0, velocity 1). */
  const InitY0: real := 0.0
  const InitY1: real := 1.0

  datatype Oscillator = Oscillator(
    vdp: VanDerPol,
    integrator: Bdf.Integrator,
    sampleRate: real,
    resX: Resampler,
    resMu: Resampler,
    resW: Resampler)
  {
    /**
     * A 2-dimensional double-precision integrator whose step size is set
     * exactly when the sample rate is non-zero, and three resamplers of one
     * kind.
     */
    predicate Valid()
    {
      && integrator.Valid() && integrator.dim == 2 && integrator.p == Double
      && (integrator.T.Some? <==> sampleRate != 0.0)
      && resX.Valid() && resMu.Valid() && resW.Valid()
      && resMu.Factor() == resX.Factor() && resW.Factor() == resX.Factor()
    }
  }

  /**
   * The constructor: default Van der Pol parameters, the integrator seeded
   * with (0, 1), no sample rate yet, and three resamplers from one factory.
   */
  function NewOscillator(order: nat, make: Resampler): (o: Oscillator)
    requires 1 <= order <= 6 && make.Valid()
    ensures o.Valid() && o.sampleRate == 0.0 && o.integrator.order == order
    ensures Bdf.CurrentState(o.integrator) == [InitY0, InitY1] && o.integrator.state[1] == [InitY0, InitY1]
    ensures o.integrator.known == 1
    ensures o.resX == make && o.resMu == make && o.resW == make
  {
    var b := Bdf.SetInitConditions(Bdf.NewIntegrator(order, 2, Double), [InitY0, InitY1]);
    Oscillator(Default, b, 0.0, make, make, make)
  }

  /**
   * `SetSampleRate`: the oversampled rate f0 times the factor; the
   * integrator is re-seeded from its current state (not from the initial
   * one) and given step size 1 / rate.
   */
  function SetSampleRate(o: Oscillator, f0: real): (r: Oscillator)
    requires o.Valid()
    ensures r.Valid() && r == o.(sampleRate := r.sampleRate, integrator := r.integrator)
    ensures r.sampleRate == f0 * (o.resX.Factor() as real)
    ensures Bdf.CurrentState(r.integrator) == Bdf.CurrentState(o.integrator)
    ensures r.integrator.state[1] == Bdf.CurrentState(o.integrator) && r.integrator.known == 1
    ensures forall j :: 2 <= j < Bdf.Columns ==> r.integrator.state[j] == Zero(2)
    ensures r.integrator.T.Some? ==> r.integrator.T.value * r.sampleRate == 1.0
  {
    var rate := f0 * (o.resX.Factor() as real);
    var seeded := Bdf.SetInitConditions(o.integrator, Bdf.CurrentState(o.integrator));
    o.(sampleRate := rate, integrator := Bdf.SetSampleRate(seeded, rate))
  }

  /** std::max(1e-8, mu) */
  function ClampMu(mu: real): (r: real)
    ensures r >= MinMu
    ensures mu >= MinMu ==> r == mu
  {
    Max(MinMu, mu)
  }

  /** std::max(1e-4, std::min(2 pi 4200, w)) */
  function ClampW(w: real): (r: real)
    ensures MinW <= r <= MaxAngularFreq
    ensures MinW <= w <= MaxAngularFreq ==> r == w
  {
    Max(MinW, Min(MaxAngularFreq, w))
  }

  /** The velocity bound 2 * 12 * rate. */
  function DerivMax(rate: real): (d: real)
    ensures rate >= 0.0 ==> d >= 0.0
    ensures d == 24.0 * rate
  {
    2.0 * MaxOutput * rate
  }

  /** The position lies within +-12 and the velocity within +-(2 * 12 * rate). */
  predicate InClamp(y: Vec, rate: real)
    requires |y| == 2
  {
    -MaxOutput <= y[0] <= MaxOutput && -2.0 * MaxOutput * rate <= y[1] <= 2.0 * MaxOutput * rate
  }

  /** Position clamped to +-12, velocity to +-(2 * 12 * rate). */
  function ClampState(y: Vec, derivMax: real): (r: Vec)
    requires |y| == 2 && derivMax >= 0.0
    ensures |r| == 2
    ensures -MaxOutput <= r[0] <= MaxOutput && -derivMax <= r[1] <= derivMax
    ensures -MaxOutput <= y[0] <= MaxOutput && -derivMax <= y[1] <= derivMax ==> r == y
  {
    [ClampSymmetric(y[0], MaxOutput), ClampSymmetric(y[1], derivMax)]
  }

  /** The clamp loop of `ModelStep`: the two newest history columns are clamped, the older ones kept. */
  function ClampNewest(h: seq<Vec>, derivMax: real): (r: seq<Vec>)
    requires Bdf.HistoryShaped(h, 2) && derivMax >= 0.0
    ensures Bdf.HistoryShaped(r, 2)
    ensures r[0] == ClampState(h[0], derivMax) && r[1] == ClampState(h[1], derivMax)
    ensures forall j :: 2 <= j < Bdf.Columns ==> r[j] == h[j]
  {
    h[0 := ClampState(h[0], derivMax)][1 := ClampState(h[1], derivMax)]
  }

  /**
   * `ModelStep`: clamp the parameters, take one BDF step, clamp the two
   * newest history columns and return the clamped position. It is only
   * reached once the sample rate is known to be positive.
   */
  function ModelStep(o: Oscillator, la: Bdf.LinearSolver, x: real, mu: real, w: real): (r: (real, Oscillator))
    requires o.Valid() && o.sampleRate > 0.0 && Bdf.SolverShaped(la, 2)
    ensures r.1.Valid() && r.1 == o.(vdp := r.1.vdp, integrator := r.1.integrator)
    ensures r.1.vdp == VanDerPol(ClampMu(mu), ClampW(w))
    ensures -MaxOutput <= r.0 <= MaxOutput && r.0 == Bdf.CurrentState(r.1.integrator)[0]
    ensures InClamp(r.1.integrator.state[0], o.sampleRate) && InClamp(r.1.integrator.state[1], o.sampleRate)
    ensures r.1.integrator.order == o.integrator.order && r.1.integrator.T == o.integrator.T
  {
    var vdp := VanDerPol(ClampMu(mu), ClampW(w));
    var stepped := Bdf.Step(o.integrator, AsOde(vdp), la, x);
    var derivMax := DerivMax(o.sampleRate);
    var clamped := ClampNewest(stepped.state, derivMax);
    var b := stepped.(state := clamped);
    (clamped[0][0], o.(vdp := vdp, integrator := b))
  }

  /**
   * A tick is one BDF step of the clamped system followed by the clamp of
   * the two newest history columns: every other field of the stepped
   * integrator is kept, the older columns are the stepped ones, and the
   * columns past order + 1 are still those from before the tick.
   */
  lemma ModelStepIsClampedStep(o: Oscillator, la: Bdf.LinearSolver, x: real, mu: real, w: real)
    requires o.Valid() && o.sampleRate > 0.0 && Bdf.SolverShaped(la, 2)
    ensures var r := ModelStep(o, la, x, mu, w);
      var stepped := Bdf.Step(o.integrator, AsOde(VanDerPol(ClampMu(mu), ClampW(w))), la, x);
      var derivMax := DerivMax(o.sampleRate);
      && r.1.integrator == stepped.(state := r.1.integrator.state)
      && r.1.integrator.state[0] == ClampState(stepped.state[0], derivMax)
      && r.1.integrator.state[1] == ClampState(stepped.state[1], derivMax)
      && (forall j :: 2 <= j < Bdf.Columns ==> r.1.integrator.state[j] == stepped.state[j])
    ensures var r := ModelStep(o, la, x, mu, w);
      && r.1.integrator.state[1] == r.1.integrator.state[0]
      && (forall j :: o.integrator.order + 2 <= j < Bdf.Columns ==> r.1.integrator.state[j] == o.integrator.state[j])
  {
  }

  /** The ticks of one call: `ModelStep` once per oversampled sample, in order. */
  function RunTicks(o: Oscillator, la: Bdf.LinearSolver, xs: seq<real>, mus: seq<real>, ws: seq<real>)
    : (r: (seq<real>, Oscillator))
    requires o.Valid() && o.sampleRate > 0.0 && Bdf.SolverShaped(la, 2)
    requires |mus| == |xs| && |ws| == |xs|
    ensures |r.0| == |xs| && r.1.Valid()
    ensures r.1 == o.(vdp := r.1.vdp, integrator := r.1.integrator)
    ensures r.1.integrator.order == o.integrator.order && r.1.integrator.T == o.integrator.T
    ensures forall i :: 0 <= i < |xs| ==> -MaxOutput <= r.0[i] <= MaxOutput
    ensures |xs| > 0 ==> r.0[0] == ModelStep(o, la, xs[0], mus[0], ws[0]).0
    decreases |xs|
  {
    if |xs| == 0 then ([], o)
    else
      var first := ModelStep(o, la, xs[0], mus[0], ws[0]);
      var rest := RunTicks(first.1, la, xs[1..], mus[1..], ws[1..]);
      OutputsCons(first.0, rest.0);
      ([first.0] + rest.0, rest.1)
  }

  /** Positions within +-12 stay so when one more is put in front. */
  lemma OutputsCons(y: real, ys: seq<real>)
    requires -MaxOutput <= y <= MaxOutput
    requires forall i :: 0 <= i < |ys| ==> -MaxOutput <= ys[i] <= MaxOutput
    ensures forall i :: 0 <= i < |[y] + ys| ==> -MaxOutput <= ([y] + ys)[i] <= MaxOutput
  {
  }

  /** Ticks unfolded once: the first tick, then the rest from the oscillator it leaves. */
  lemma RunTicksCons(o: Oscillator, la: Bdf.LinearSolver, xs: seq<real>, mus: seq<real>, ws: seq<real>)
    requires o.Valid() && o.sampleRate > 0.0 && Bdf.SolverShaped(la, 2)
    requires |mus| == |xs| && |ws| == |xs| && |xs| > 0
    ensures var first := ModelStep(o, la, xs[0], mus[0], ws[0]);
      var rest := RunTicks(first.1, la, xs[1..], mus[1..], ws[1..]);
      RunTicks(o, la, xs, mus, ws) == ([first.0] + rest.0, rest.1)
  {
  }

  /**
   * `Step`: fails when the sample rate is not positive (the C++ throws);
   * otherwise upsample the three inputs, run one tick per oversampled
   * sample and downsample the ticks' positions with the input's resampler.
   */
  function Step(o: Oscillator, la: Bdf.LinearSolver, x: real, mu: real, w: real): (r: Option<(real, Oscillator)>)
    requires o.Valid() && Bdf.SolverShaped(la, 2)
    ensures r.None? <==> o.sampleRate <= 0.0
    ensures r.Some? ==> r.value.1.Valid() && r.value.1.sampleRate == o.sampleRate
  {
    if o.sampleRate <= 0.0 then None
    else
      var ux := Upsample(o.resX, x);
      var um := Upsample(o.resMu, mu);
      var uw := Upsample(o.resW, w);
      var ticks := RunTicks(o.(resX := ux.1, resMu := um.1, resW := uw.1), la, ux.0, um.0, uw.0);
      var down := Downsample(ticks.1.resX, ticks.0);
      Some((down.0, ticks.1.(resX := down.1)))
  }

  /** Each call of `Step` runs exactly Factor ticks, whose positions are all within +-12. */
  lemma StepTicks(o: Oscillator, la: Bdf.LinearSolver, x: real, mu: real, w: real)
    requires o.Valid() && Bdf.SolverShaped(la, 2) && o.sampleRate > 0.0
    ensures var ux := Upsample(o.resX, x);
      var um := Upsample(o.resMu, mu);
      var uw := Upsample(o.resW, w);
      var ticks := RunTicks(o.(resX := ux.1, resMu := um.1, resW := uw.1), la, ux.0, um.0, uw.0);
      && |ticks.0| == o.resX.Factor()
      && (forall i :: 0 <= i < |ticks.0| ==> -MaxOutput <= ticks.0[i] <= MaxOutput)
      && Step(o, la, x, mu, w) == Some((Downsample(ticks.1.resX, ticks.0).0, ticks.1.(resX := Downsample(ticks.1.resX, ticks.0).1)))
  {
  }

  /**
   * With the whole history resting at (c, 0) and the input at c, within
   * the clamps, a tick returns c and leaves the history where it was: the
   * rest state of the Van der Pol system is reproduced by every BDF order.
   */
  lemma ModelStepAtRest(o: Oscillator, la: Bdf.LinearSolver, c: real, mu: real, w: real)
    requires o.Valid() && o.sampleRate > 0.0 && Bdf.SolverShaped(la, 2) && Bdf.NormOfZero(la, 2)
    requires Bdf.ConstantHistory(o.integrator.state, [c, 0.0]) && -MaxOutput <= c <= MaxOutput
    ensures ModelStep(o, la, c, mu, w).0 == c
    ensures ModelStep(o, la, c, mu, w).1.integrator.state == o.integrator.state
  {
    var vdp := VanDerPol(ClampMu(mu), ClampW(w));
    Equilibrium(vdp, c);
    var b := o.integrator;
    Bdf.SubStepAtEquilibrium(AsOde(vdp), la, b.p, b.order, b.state, b.known, b.T.value, c, [c, 0.0]);
    var stepped := Bdf.Step(b, AsOde(vdp), la, c);
    assert stepped.state == b.state;
    var derivMax := DerivMax(o.sampleRate);
    assert ClampState([c, 0.0], derivMax) == [c, 0.0];
  }
}
