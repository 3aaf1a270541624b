/**
 * The factory functions that build the concrete resamplers: half-band
 * stages with published all-pass coefficients (a fifth-order Butterworth
 * and seventh/ninth-order Chebyshev designs), the identity resampler and
 * the factor-4 resampler made of two seventh-order stages.
 *
 * The `dsp` and `tfdsp` namespaces each define the same five factories;
 * module `ResamplerFactories` models the first, `TfdspResamplerFactories`
 * the second; the contract of each `tfdsp` factory states that it builds
 * exactly the resampler of its `dsp` counterpart.
 */
module ResamplerFactories {
  import opened Scalars
  import opened Resampling

  /** Every coefficient lies strictly between 0 and 1. */
  predicate InUnitInterval(coeffs: seq<real>)
  {
    forall i :: 0 <= i < |coeffs| ==> 0.0 < coeffs[i] < 1.0
  }

  /** A freshly built resampler: valid, at rest, with stable all-pass sections. */
  predicate FreshHalfBand(h: HalfBand, n: nat, m: nat)
  {
    && h.Valid() && h.AtDc(0.0)
    && |h.coeffsDirect| == n && |h.coeffsDelayed| == m
    && InUnitInterval(h.coeffsDirect) && InUnitInterval(h.coeffsDelayed)
  }

  /** sqrt(5) lies between 2 and 2.5, which places both Butterworth coefficients in (0, 1). */
  lemma SqrtFiveBounds(e: Elementary)
    requires SqrtOfFive(e)
    ensures 2.0 < e.sqrt(5.0) < 2.5
  {
    var s := e.sqrt(5.0);
    assert s >= 0.0 && s * s == 5.0;
    var lo, p := s - 2.0, s + 2.0;
    assert lo * p == 1.0;
    PositiveFactor(lo, p);
    var hi, q := 2.5 - s, 2.5 + s;
    assert hi * q == 1.25;
    PositiveFactor(hi, q);
  }

  /** A positive product with one positive factor has a positive other factor. */
  lemma PositiveFactor(x: real, y: real)
    requires x * y > 0.0
    requires y > 0.0
    ensures x > 0.0
  {
  }

  /** Order-5 Butterworth: one direct section 1/(5 + 2 sqrt 5), one delayed section 5 - 2 sqrt 5. */
  function Butterworth5(e: Elementary): (r: Resampler)
    requires SqrtOfFive(e)
    ensures r.X2? && r.Factor() == 2 && FreshHalfBand(r.half, 1, 1)
    ensures r.half.coeffsDirect[0] * (5.0 + 2.0 * e.sqrt(5.0)) == 1.0
    ensures r.half.coeffsDelayed[0] + 2.0 * e.sqrt(5.0) == 5.0
  {
    SqrtFiveBounds(e);
    var s := e.sqrt(5.0);
    X2(NewHalfBand([1.0 / (5.0 + 2.0 * s)], [5.0 - 2.0 * s]))
  }

  const Cheby7Direct: seq<real> := [0.081430023176616115, 0.70977080010248506]
  const Cheby7Delayed: seq<real> := [0.31565984021666094]
  const Cheby9Direct: seq<real> := [0.079866426236357438, 0.54532365107113168]
  const Cheby9Delayed: seq<real> := [0.28382934487410966, 0.83441189148073658]

  /** Order-7 Chebyshev: two direct sections and one delayed section. */
  function Chebychev7(): (r: Resampler)
    ensures r.X2? && r.Factor() == 2 && FreshHalfBand(r.half, 2, 1)
  {
    X2(NewHalfBand(Cheby7Direct, Cheby7Delayed))
  }

  /** Order-9 Chebyshev: two direct and two delayed sections. */
  function Chebychev9(): (r: Resampler)
    ensures r.X2? && r.Factor() == 2 && FreshHalfBand(r.half, 2, 2)
  {
    X2(NewHalfBand(Cheby9Direct, Cheby9Delayed))
  }

  function DummyResampler(): (r: Resampler)
    ensures r.Valid() && r.Factor() == 1
  {
    Dummy
  }

  /** Factor 4: two independent, identically built order-7 Chebyshev stages. */
  function X4Cheby7(): (r: Resampler)
    ensures r.X4? && r.Factor() == 4 && r.stage1 == r.stage2
    ensures FreshHalfBand(r.stage1, 2, 1) && r.stage1 == Chebychev7().half
  {
    X4(Chebychev7().half, Chebychev7().half)
  }

  /** Coefficients in (0, 1) satisfy the stability condition of the lossless cascade. */
  lemma UnitIntervalStable(coeffs: seq<real>)
    requires InUnitInterval(coeffs)
    ensures Stable(coeffs)
  {
  }

  /**
   * Every factory yields a valid resampler at rest with stable sections, so
   * the zero-in-zero-out and DC properties of the framework apply to each.
   */
  lemma FactoriesAtRest(e: Elementary)
    requires SqrtOfFive(e)
    ensures forall r :: r in [Butterworth5(e), Chebychev7(), Chebychev9(), DummyResampler(), X4Cheby7()] ==>
      r.Valid() && r.AtDc(0.0)
    ensures Stable(Butterworth5(e).half.coeffsDirect) && Stable(Butterworth5(e).half.coeffsDelayed)
    ensures Stable(Chebychev7().half.coeffsDirect) && Stable(Chebychev7().half.coeffsDelayed)
    ensures Stable(Chebychev9().half.coeffsDirect) && Stable(Chebychev9().half.coeffsDelayed)
  {
    var rs := [Butterworth5(e), Chebychev7(), Chebychev9(), DummyResampler(), X4Cheby7()];
    forall r | r in rs ensures r.Valid() && r.AtDc(0.0) {
    }
  }
}

/** The `tfdsp` copies of the factories, which fill Eigen arrays with the same literals. */
module TfdspResamplerFactories {
  import opened Scalars
  import opened Resampling
  import RF = ResamplerFactories

  function Butterworth5(e: Elementary): (r: Resampler)
    requires SqrtOfFive(e)
    ensures r == RF.Butterworth5(e)
  {
    var direct := [1.0 / (5.0 + 2.0 * e.sqrt(5.0))];
    var delayed := [5.0 - 2.0 * e.sqrt(5.0)];
    X2(NewHalfBand(direct, delayed))
  }

  function Chebychev7(): (r: Resampler)
    ensures r == RF.Chebychev7()
  {
    X2(NewHalfBand([0.081430023176616115, 0.70977080010248506], [0.31565984021666094]))
  }

  function Chebychev9(): (r: Resampler)
    ensures r == RF.Chebychev9()
  {
    X2(NewHalfBand([0.079866426236357438, 0.54532365107113168], [0.28382934487410966, 0.83441189148073658]))
  }

  function DummyResampler(): (r: Resampler)
    ensures r == RF.DummyResampler()
  {
    Dummy
  }

  function X4Cheby7(): (r: Resampler)
    ensures r == RF.X4Cheby7()
  {
    X4(Chebychev7().half, Chebychev7().half)
  }
}
