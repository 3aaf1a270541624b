/**
 * The polyphase IIR oversampling framework (Valenzuela & Constantinides):
 * a half-band stage made of a "direct" and a "delayed" cascade of
 * first-order all-pass sections, the identity resampler of factor 1, and
 * the factor-4 resampler built from two half-band stages.
 *
 * The C++ templates `Resampler<Impl, Factor>`, `DummyResampler`,
 * `PolyphaseIIR_X2Resampler<N, M>` and `X4Resampler<X2Type>` become one
 * datatype with a constructor per implementation; the template sizes N and
 * M become the lengths of the coefficient sequences.
 */
module Resampling {

  /**
   * One all-pass section with coefficient a and state s fed v:
   * y = a*v + s, then s := v - a*y. Returns (y, next state).
   */
  function Section(a: real, s: real, v: real): (real, real)
  {
    var y := a * v + s;
    (y, v - a * y)
  }

  /**
   * A cascade of sections, the input going through coeffs[0] first:
   * returns the cascade output and the next states.
   */
  function Cascade(coeffs: seq<real>, states: seq<real>, v: real): (r: (real, seq<real>))
    requires |states| == |coeffs|
    ensures |r.1| == |coeffs|
    decreases |coeffs|
  {
    if |coeffs| == 0 then (v, [])
    else
      var (y, s) := Section(coeffs[0], states[0], v);
      var (out, rest) := Cascade(coeffs[1..], states[1..], y);
      (out, [s] + rest)
  }

  /** Every section state is the DC steady state c * (1 - a) of its coefficient. */
  predicate CascadeAtDc(coeffs: seq<real>, states: seq<real>, c: real)
  {
    |states| == |coeffs| && forall i :: 0 <= i < |coeffs| ==> states[i] == c * (1.0 - coeffs[i])
  }

  /** A half-band stage: coefficients and separate states for the upsampling and the downsampling direction. */
  datatype HalfBand = HalfBand(
    coeffsDirect: seq<real>,
    coeffsDelayed: seq<real>,
    sInDirect: seq<real>,
    sInDelayed: seq<real>,
    sOutDirect: seq<real>,
    sOutDelayed: seq<real>,
    delay: real)
  {
    /** The state arrays have the template sizes N (direct) and M (delayed). */
    predicate Valid()
    {
      && |sInDirect| == |coeffsDirect| && |sOutDirect| == |coeffsDirect|
      && |sInDelayed| == |coeffsDelayed| && |sOutDelayed| == |coeffsDelayed|
    }

    /** The state a constant input c settles to. */
    predicate AtDc(c: real)
    {
      && CascadeAtDc(coeffsDirect, sInDirect, c) && CascadeAtDc(coeffsDelayed, sInDelayed, c)
      && CascadeAtDc(coeffsDirect, sOutDirect, c) && CascadeAtDc(coeffsDelayed, sOutDelayed, c)
      && delay == c
    }
  }

  /** The constructor: given coefficients, all states and the cross delay start at zero. */
  function NewHalfBand(direct: seq<real>, delayed: seq<real>): (h: HalfBand)
    ensures h.Valid() && h.AtDc(0.0)
    ensures h.coeffsDirect == direct && h.coeffsDelayed == delayed
  {
    var zd := seq(|direct|, i => 0.0);
    var zl := seq(|delayed|, i => 0.0);
    HalfBand(direct, delayed, zd, zl, zd, zl, 0.0)
  }

  /**
   * One input sample to two output samples: sample 0 is the direct cascade,
   * sample 1 the delayed cascade. Only the upsampling states change.
   */
  function HalfBandUpsample(h: HalfBand, x: real): (r: (seq<real>, HalfBand))
    requires h.Valid()
    ensures |r.0| == 2 && r.1.Valid()
    ensures r.0[0] == Cascade(h.coeffsDirect, h.sInDirect, x).0
    ensures r.0[1] == Cascade(h.coeffsDelayed, h.sInDelayed, x).0
    ensures r.1 == h.(sInDirect := r.1.sInDirect, sInDelayed := r.1.sInDelayed)
  {
    var (d, sd) := Cascade(h.coeffsDirect, h.sInDirect, x);
    var (l, sl) := Cascade(h.coeffsDelayed, h.sInDelayed, x);
    ([d, l], h.(sInDirect := sd, sInDelayed := sl))
  }

  /**
   * Two input samples to one: half the direct cascade of sample 0 plus half
   * the delayed cascade output of the previous call; the current delayed
   * output is kept for the next call. Only the downsampling states change.
   */
  function HalfBandDownsample(h: HalfBand, x2: seq<real>): (r: (real, HalfBand))
    requires h.Valid() && |x2| == 2
    ensures r.1.Valid()
    ensures r.0 == 0.5 * Cascade(h.coeffsDirect, h.sOutDirect, x2[0]).0 + 0.5 * h.delay
    ensures r.1.delay == Cascade(h.coeffsDelayed, h.sOutDelayed, x2[1]).0
    ensures r.1 == h.(sOutDirect := r.1.sOutDirect, sOutDelayed := r.1.sOutDelayed, delay := r.1.delay)
  {
    var (d, sd) := Cascade(h.coeffsDirect, h.sOutDirect, x2[0]);
    var (l, sl) := Cascade(h.coeffsDelayed, h.sOutDelayed, x2[1]);
    (0.5 * d + 0.5 * h.delay, h.(sOutDirect := sd, sOutDelayed := sl, delay := l))
  }

  /** The resampler implementations; `X4` holds its two half-band stages. */
  datatype Resampler =
    | Dummy
    | X2(half: HalfBand)
    | X4(stage1: HalfBand, stage2: HalfBand)
  {
    predicate Valid()
    {
      match this
      case Dummy => true
      case X2(h) => h.Valid()
      case X4(s1, s2) => s1.Valid() && s2.Valid()
    }

    /** `ResamplingFactor`: the template factor of each implementation. */
    function Factor(): nat
    {
      match this
      case Dummy => 1
      case X2(_) => 2
      case X4(_, _) => 4
    }

    predicate AtDc(c: real)
    {
      match this
      case Dummy => true
      case X2(h) => h.AtDc(c)
      case X4(s1, s2) => s1.AtDc(c) && s2.AtDc(c)
    }
  }

  /** `Upsample`: one sample in, `Factor` samples out. */
  function Upsample(r: Resampler, x: real): (u: (seq<real>, Resampler))
    requires r.Valid()
    ensures |u.0| == r.Factor()
    ensures u.1.Valid() && u.1.Factor() == r.Factor()
  {
    match r
    case Dummy => ([x], r)
    case X2(h) =>
      var (y, h') := HalfBandUpsample(h, x);
      (y, X2(h'))
    case X4(s1, s2) =>
      var (x1, s1') := HalfBandUpsample(s1, x);
      var (a, s2') := HalfBandUpsample(s2, x1[0]);
      var (b, s2'') := HalfBandUpsample(s2', x1[1]);
      (a + b, X4(s1', s2''))
  }

  /** `Downsample`: `Factor` samples in, one sample out. */
  function Downsample(r: Resampler, xs: seq<real>): (d: (real, Resampler))
    requires r.Valid() && |xs| == r.Factor()
    ensures d.1.Valid() && d.1.Factor() == r.Factor()
  {
    match r
    case Dummy => (xs[0], r)
    case X2(h) =>
      var (y, h') := HalfBandDownsample(h, xs);
      (y, X2(h'))
    case X4(s1, s2) =>
      var (a, s2') := HalfBandDownsample(s2, xs[0..2]);
      var (b, s2'') := HalfBandDownsample(s2', xs[2..4]);
      var (y, s1') := HalfBandDownsample(s1, [a, b]);
      (y, X4(s1', s2''))
  }

  // ---------------------------------------------------------------------
  // Properties
  // ---------------------------------------------------------------------

  /** A section at its DC state passes a constant through and keeps its state. */
  lemma SectionDc(a: real, c: real)
    ensures Section(a, c * (1.0 - a), c) == (c, c * (1.0 - a))
  {
  }

  /**
   * Each section is lossless (all-pass): with weight w = 1 - a^2,
   * w*y^2 + s'^2 == w*v^2 + s^2.
   */
  lemma SectionLossless(a: real, s: real, v: real)
    ensures var (y, s') := Section(a, s, v);
      (1.0 - a * a) * (y * y) + s' * s' == (1.0 - a * a) * (v * v) + s * s
  {
    var y := a * v + s;
    var s' := v - a * y;
    assert s' == (1.0 - a * a) * v - a * s;
    calc {
      (1.0 - a * a) * (y * y) + s' * s';
      (1.0 - a * a) * (a * a * v * v + 2.0 * a * v * s + s * s)
        + ((1.0 - a * a) * (1.0 - a * a) * v * v - 2.0 * a * (1.0 - a * a) * v * s + a * a * s * s);
      (1.0 - a * a) * (v * v) + s * s;
    }
  }

  /** A cascade at the DC state of c maps c to c and keeps every state. */
  lemma {:induction false} CascadeDc(coeffs: seq<real>, states: seq<real>, c: real)
    requires CascadeAtDc(coeffs, states, c)
    ensures Cascade(coeffs, states, c) == (c, states)
    decreases |coeffs|
  {
    if |coeffs| > 0 {
      SectionDc(coeffs[0], c);
      assert states[0] == c * (1.0 - coeffs[0]);
      assert CascadeAtDc(coeffs[1..], states[1..], c);
      CascadeDc(coeffs[1..], states[1..], c);
      assert [states[0]] + states[1..] == states;
    }
  }

  /** Every coefficient has magnitude below one, the all-pass stability condition. */
  predicate Stable(coeffs: seq<real>)
  {
    forall i :: 0 <= i < |coeffs| ==> -1.0 < coeffs[i] < 1.0
  }

  /** s^2 / (1 - a^2): the energy held in the state s of a section with coefficient a. */
  function SectionEnergy(a: real, s: real): real
    requires -1.0 < a < 1.0
  {
    StableWeight(a);
    s * s / (1.0 - a * a)
  }

  /** The energy stored in a cascade: the sum of its sections' energies. */
  function StoredEnergy(coeffs: seq<real>, states: seq<real>): real
    requires |states| == |coeffs| && Stable(coeffs)
    decreases |coeffs|
  {
    if |coeffs| == 0 then 0.0
    else
      StableTail(coeffs);
      SectionEnergy(coeffs[0], states[0]) + StoredEnergy(coeffs[1..], states[1..])
  }

  lemma StableTail(coeffs: seq<real>)
    requires Stable(coeffs) && |coeffs| > 0
    ensures Stable(coeffs[1..])
  {
    forall i | 0 <= i < |coeffs| - 1 ensures -1.0 < coeffs[1..][i] < 1.0 {
      assert coeffs[1..][i] == coeffs[i + 1];
    }
  }

  /** For -1 < a < 1 the section weight 1 - a^2 is positive. */
  lemma StableWeight(a: real)
    requires -1.0 < a < 1.0
    ensures 1.0 - a * a > 0.0
  {
    assert (1.0 - a) * (1.0 + a) > 0.0;
  }

  /** Per-section losslessness divided through by the positive weight 1 - a^2. */
  lemma SectionLosslessNormalised(a: real, s: real, v: real)
    requires -1.0 < a < 1.0
    ensures Section(a, s, v).0 * Section(a, s, v).0 + SectionEnergy(a, Section(a, s, v).1)
      == v * v + SectionEnergy(a, s)
  {
    var y := Section(a, s, v).0;
    var s' := Section(a, s, v).1;
    var w := 1.0 - a * a;
    StableWeight(a);
    SectionLossless(a, s, v);
    assert w * (y * y) + s' * s' == w * (v * v) + s * s;
    assert w * (y * y + s' * s' / w) == w * (y * y) + s' * s';
    assert w * (v * v + s * s / w) == w * (v * v) + s * s;
  }

  /**
   * The whole cascade is lossless: output energy plus stored energy after the
   * step equals input energy plus stored energy before it.
   */
  lemma {:induction false} CascadeLossless(coeffs: seq<real>, states: seq<real>, v: real)
    requires |states| == |coeffs| && Stable(coeffs)
    ensures Cascade(coeffs, states, v).0 * Cascade(coeffs, states, v).0
      + StoredEnergy(coeffs, Cascade(coeffs, states, v).1)
      == v * v + StoredEnergy(coeffs, states)
    decreases |coeffs|
  {
    if |coeffs| > 0 {
      StableTail(coeffs);
      var sec := Section(coeffs[0], states[0], v);
      var tail := Cascade(coeffs[1..], states[1..], sec.0);
      SectionLosslessNormalised(coeffs[0], states[0], v);
      CascadeLossless(coeffs[1..], states[1..], sec.0);
      assert sec.0 * sec.0 + SectionEnergy(coeffs[0], sec.1) == v * v + SectionEnergy(coeffs[0], states[0]);
      assert tail.0 * tail.0 + StoredEnergy(coeffs[1..], tail.1) == sec.0 * sec.0 + StoredEnergy(coeffs[1..], states[1..]);
      assert |tail.1| == |coeffs| - 1;
      EnergySplit(coeffs, states, v, sec.0, sec.1, tail.0, tail.1);
      assert Cascade(coeffs, states, v) == (tail.0, [sec.1] + tail.1);
    } else {
      assert Cascade(coeffs, states, v) == (v, []);
    }
  }

  /**
   * The inductive step in energy terms: the first section moves v to y
   * leaving state s1, the rest of the cascade moves y to out leaving rest.
   */
  lemma EnergySplit(coeffs: seq<real>, states: seq<real>, v: real,
                    y: real, s1: real, out: real, rest: seq<real>)
    requires |states| == |coeffs| > 0 && Stable(coeffs) && |rest| == |coeffs| - 1
    requires y * y + SectionEnergy(coeffs[0], s1) == v * v + SectionEnergy(coeffs[0], states[0])
    requires out * out + StoredEnergy(coeffs[1..], rest) == y * y + StoredEnergy(coeffs[1..], states[1..])
    ensures out * out + StoredEnergy(coeffs, [s1] + rest) == v * v + StoredEnergy(coeffs, states)
  {
    assert ([s1] + rest)[1..] == rest;
  }

  /** A half-band stage at the DC state of c: up(c) == [c, c], down([c, c]) == c, state unchanged. */
  lemma HalfBandDc(h: HalfBand, c: real)
    requires h.Valid() && h.AtDc(c)
    ensures HalfBandUpsample(h, c) == ([c, c], h)
    ensures HalfBandDownsample(h, [c, c]) == (c, h)
  {
    CascadeDc(h.coeffsDirect, h.sInDirect, c);
    CascadeDc(h.coeffsDelayed, h.sInDelayed, c);
    CascadeDc(h.coeffsDirect, h.sOutDirect, c);
    CascadeDc(h.coeffsDelayed, h.sOutDelayed, c);
  }

  /** The identity resampler: Downsample(Upsample(x)) == x, factor 1, no state. */
  lemma DummyRoundTrip(x: real)
    ensures Dummy.Factor() == 1
    ensures Upsample(Dummy, x) == ([x], Dummy)
    ensures Downsample(Dummy, Upsample(Dummy, x).0) == (x, Dummy)
  {
  }

  /**
   * Unity DC gain with an exact fixed point, for every implementation: at the
   * DC state of c, upsampling c gives Factor copies of c, downsampling them
   * gives c, and no state moves.
   */
  lemma DcFixedPoint(r: Resampler, c: real)
    requires r.Valid() && r.AtDc(c)
    ensures Upsample(r, c) == (seq(r.Factor(), i => c), r)
    ensures Downsample(r, seq(r.Factor(), i => c)) == (c, r)
  {
    match r
    case Dummy =>
      assert seq(1, i => c) == [c];
    case X2(h) =>
      HalfBandDc(h, c);
      assert seq(2, i => c) == [c, c];
    case X4(s1, s2) =>
      HalfBandDc(s1, c);
      HalfBandDc(s2, c);
      assert seq(4, i => c) == [c, c] + [c, c];
      var cs := seq(4, i => c);
      assert cs[0..2] == [c, c] && cs[2..4] == [c, c];
  }

  /** Zero state and zero input: every output is zero and the state stays at rest. */
  lemma ZeroInZeroOut(r: Resampler)
    requires r.Valid() && r.AtDc(0.0)
    ensures Upsample(r, 0.0) == (seq(r.Factor(), i => 0.0), r)
    ensures Downsample(r, seq(r.Factor(), i => 0.0)) == (0.0, r)
  {
    DcFixedPoint(r, 0.0);
  }
}
