/**
 * The mid-point discrete gradient of tanh (anti-derivative anti-aliasing):
 * Value(x, xPrev) is the slope of log(cosh) between the two points, falling
 * back to tanh of the mid-point when the points are within eps of each other,
 * its partial derivative in x, the block form over a vector of samples, and
 * the block processor that feeds each sample together with its predecessor.
 */
module DiscreteGradient {
  import opened Scalars

  /** `_TanhEpsilon`: the closeness threshold, per floating-point precision. */
  function TanhEpsilon(p: Precision): real
  {
    match p
    case Single => 0.000001
    case Double => 0.000000000001
  }

  /** log(cosh x / cosh xPrev) / (x - xPrev), the secant slope of log(cosh). */
  function ValueLarge(e: Elementary, x: real, xPrev: real): (r: real)
    requires x != xPrev
    ensures r * (x - xPrev) == e.logCosh(x) - e.logCosh(xPrev)
  {
    (e.logCosh(x) - e.logCosh(xPrev)) / (x - xPrev)
  }

  /** The two points are close enough for the mid-point fallback. */
  predicate Near(p: Precision, x: real, xPrev: real)
  {
    Abs(x - xPrev) <= TanhEpsilon(p)
  }

  /**
   * `Tanh::Value`: near the diagonal tanh((x + xPrev)/2), elsewhere the exact
   * discrete gradient, whose product with the step x - xPrev is the change
   * of log(cosh).
   */
  function Value(e: Elementary, p: Precision, x: real, xPrev: real): real
  {
    if Near(p, x, xPrev) then e.tanh(0.5 * (x + xPrev)) else ValueLarge(e, x, xPrev)
  }

  /** `Tanh::Derivative`: the partial derivative of Value in x. */
  function Derivative(e: Elementary, p: Precision, x: real, xPrev: real): real
  {
    if Near(p, x, xPrev) then
      var t := e.tanh(0.5 * (x + xPrev));
      0.5 * (1.0 - t * t)
    else
      (e.tanh(x) - ValueLarge(e, x, xPrev)) / (x - xPrev)
  }

  /** The block `Value`: the scalar Value applied element by element. */
  function BlockValue(e: Elementary, p: Precision, xs: seq<real>, xPrevs: seq<real>): (r: seq<real>)
    requires |xs| == |xPrevs|
    ensures |r| == |xs|
    ensures forall i :: 0 <= i < |xs| ==> r[i] == Value(e, p, xs[i], xPrevs[i])
  {
    seq(|xs|, i requires 0 <= i < |xs| => Value(e, p, xs[i], xPrevs[i]))
  }

  // ---------------------------------------------------------------------
  // Properties of the kernel
  // ---------------------------------------------------------------------

  /**
   * Value is the mid-point tanh near the diagonal and, elsewhere, the exact
   * discrete gradient: its product with the step is the change of log(cosh).
   */
  lemma ValueBranches(e: Elementary, p: Precision, x: real, xPrev: real)
    ensures Near(p, x, xPrev) ==> Value(e, p, x, xPrev) == e.tanh(0.5 * (x + xPrev))
    ensures !Near(p, x, xPrev) ==>
      x != xPrev && Value(e, p, x, xPrev) * (x - xPrev) == e.logCosh(x) - e.logCosh(xPrev)
  {
    if !Near(p, x, xPrev) {
      assert TanhEpsilon(p) > 0.0;
    }
  }

  /**
   * Derivative is 0.5 (1 - t^2) at the mid-point tanh t near the diagonal
   * and, elsewhere, the slope between tanh(x) and Value: the x-derivative of
   * the discrete gradient.
   */
  lemma DerivativeBranches(e: Elementary, p: Precision, x: real, xPrev: real)
    ensures Near(p, x, xPrev) ==>
      var t := e.tanh(0.5 * (x + xPrev)); Derivative(e, p, x, xPrev) == 0.5 * (1.0 - t * t)
    ensures !Near(p, x, xPrev) ==>
      Derivative(e, p, x, xPrev) * (x - xPrev) == e.tanh(x) - Value(e, p, x, xPrev)
  {
    if !Near(p, x, xPrev) {
      assert TanhEpsilon(p) > 0.0;
      var d := x - xPrev;
      var num := e.tanh(x) - ValueLarge(e, x, xPrev);
      assert d != 0.0;
      assert (num / d) * d == num;
    }
  }

  /** Both branches are symmetric in the two points. */
  lemma ValueSymmetric(e: Elementary, p: Precision, x: real, xPrev: real)
    ensures Value(e, p, x, xPrev) == Value(e, p, xPrev, x)
  {
    assert Abs(x - xPrev) == Abs(xPrev - x);
    if !Near(p, x, xPrev) {
      var a := e.logCosh(x) - e.logCosh(xPrev);
      var h := x - xPrev;
      assert a / h == (-a) / (-h);
    }
  }

  /** On the diagonal the discrete gradient is tanh itself. */
  lemma ValueOnDiagonal(e: Elementary, p: Precision, x: real)
    ensures Value(e, p, x, x) == e.tanh(x)
  {
    assert 0.5 * (x + x) == x;
  }

  /**
   * A positive step h > eps away from zero, the minimum of log(cosh), gives
   * a non-negative discrete gradient.
   */
  lemma ValueAwayFromZero(e: Elementary, p: Precision, h: real)
    requires LogCoshMinimalAtZero(e) && h > TanhEpsilon(p)
    ensures Value(e, p, h, 0.0) >= 0.0
  {
    var v := ValueLarge(e, h, 0.0);
    assert v * h >= 0.0;
  }

  /** Near the diagonal, with |tanh| <= 1, the derivative lies in [0, 1/2]. */
  lemma DerivativeNearBounded(e: Elementary, p: Precision, x: real, xPrev: real)
    requires TanhBounded(e) && Near(p, x, xPrev)
    ensures 0.0 <= Derivative(e, p, x, xPrev) <= 0.5
  {
    var t := e.tanh(0.5 * (x + xPrev));
    assert -1.0 <= t <= 1.0;
    assert 0.0 <= t * t <= 1.0 by {
      if t >= 0.0 { assert t * t <= 1.0 * t; } else { assert t * t <= (-1.0) * t; }
    }
  }

  // ---------------------------------------------------------------------
  // Block processing
  // ---------------------------------------------------------------------

  /**
   * The reference meaning of processing a stream: every sample paired with
   * the sample before it, the first with `prev`.
   */
  function StreamValue(e: Elementary, p: Precision, prev: real, xs: seq<real>): (r: seq<real>)
    ensures |r| == |xs|
    ensures |xs| > 0 ==> r[0] == Value(e, p, xs[0], prev)
    ensures forall i :: 1 <= i < |xs| ==> r[i] == Value(e, p, xs[i], xs[i - 1])
  {
    seq(|xs|, i requires 0 <= i < |xs| => Value(e, p, xs[i], if i == 0 then prev else xs[i - 1]))
  }

  /** `TanhBlock`: the lag vector `_x1`; its length is the block size. */
  datatype TanhBlock = TanhBlock(lag: seq<real>)

  /** The constructor: the lag starts at zero. */
  function NewTanhBlock(blockSize: nat): (b: TanhBlock)
    ensures |b.lag| == blockSize
    ensures forall i :: 0 <= i < blockSize ==> b.lag[i] == 0.0
  {
    TanhBlock(seq(blockSize, i => 0.0))
  }

  /**
   * `TanhBlock::Process`: the lag vector becomes [previous last input,
   * x0, ..., x(n-2)], the output is the block Value against it, and the
   * first lag slot keeps x(n-1) for the next block.
   */
  function Process(e: Elementary, p: Precision, b: TanhBlock, xs: seq<real>): (r: (seq<real>, TanhBlock))
    requires |xs| == |b.lag| > 0
    ensures |r.0| == |xs| && |r.1.lag| == |xs|
    ensures r.0 == StreamValue(e, p, b.lag[0], xs)
    ensures r.1.lag[0] == xs[|xs| - 1]
    ensures forall i :: 1 <= i < |xs| ==> r.1.lag[i] == xs[i - 1]
  {
    var n := |xs|;
    var lag := [b.lag[0]] + xs[..n - 1];
    var y := BlockValue(e, p, xs, lag);
    (y, TanhBlock(lag[0 := xs[n - 1]]))
  }

  /**
   * Two consecutive blocks give the outputs of the concatenated stream:
   * the lag carried between the calls is exactly the previous sample.
   */
  lemma ProcessTwoBlocks(e: Elementary, p: Precision, b: TanhBlock, xs: seq<real>, ys: seq<real>)
    requires |xs| == |ys| == |b.lag| > 0
    ensures Process(e, p, b, xs).0 + Process(e, p, Process(e, p, b, xs).1, ys).0
      == StreamValue(e, p, b.lag[0], xs + ys)
  {
    var out1 := Process(e, p, b, xs).0;
    var b1 := Process(e, p, b, xs).1;
    var out2 := Process(e, p, b1, ys).0;
    var s := StreamValue(e, p, b.lag[0], xs + ys);
    var zs := xs + ys;
    assert b1.lag[0] == xs[|xs| - 1];
    forall i | 0 <= i < |zs| ensures (out1 + out2)[i] == s[i] {
      if i < |xs| {
        assert zs[i] == xs[i];
        if i > 0 { assert zs[i - 1] == xs[i - 1]; }
      } else {
        var j := i - |xs|;
        assert zs[i] == ys[j];
        if j == 0 { assert zs[i - 1] == xs[|xs| - 1]; } else { assert zs[i - 1] == ys[j - 1]; }
      }
    }
  }
}
