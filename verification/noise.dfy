/**
 * The pinking filter of the pink noise source and the linear detune of a
 * V/oct pitch. The white noise sample is an input: the random source is
 * not modelled.
 */
module Noise {
  import opened Scalars

  // ---------------------------------------------------------------------
  // Pinking filter: a third-order IIR with a 3 dB/octave slope
  // ---------------------------------------------------------------------

  /** The feedback coefficients `_a`, a[0] = 1. */
  const PinkA: seq<real> := [1.0, -2.494956002, 2.017265875, -0.522189400]

  /** The feedforward coefficients `_b`. */
  const PinkB: seq<real> := [0.049922035, -0.095993537, 0.050612699, -0.004408786]

  /**
   * The filter's input and output histories `_x` and `_y`. After a call,
   * slots 0 and 1 both hold the latest sample, and slots 2 and 3 the two
   * before it.
   */
  datatype PinkFilter = PinkFilter(x: seq<real>, y: seq<real>)
  {
    predicate Valid()
    {
      |x| == 4 && |y| == 4
    }
  }

  /** The source starts with both histories at zero. */
  const NewPinkFilter: PinkFilter := PinkFilter([0.0, 0.0, 0.0, 0.0], [0.0, 0.0, 0.0, 0.0])

  /** Tap i of the accumulation loop: b[i] x[i] - a[i] y[i]. */
  function Tap(f: PinkFilter, i: nat): real
    requires f.Valid() && 1 <= i < 4
  {
    PinkB[i] * f.x[i] - PinkA[i] * f.y[i]
  }

  /** Taps i..3, summed. */
  function TapsFrom(f: PinkFilter, i: nat): real
    requires f.Valid() && 1 <= i <= 4
    decreases 4 - i
  {
    if i == 4 then 0.0 else Tap(f, i) + TapsFrom(f, i + 1)
  }

  /**
   * The output written as the difference equation of the filter,
   * y[n] = b0 x[n] + b1 x[n-1] + b2 x[n-2] + b3 x[n-3]
   *        - a1 y[n-1] - a2 y[n-2] - a3 y[n-3],
   * where slots 1..3 hold the previous samples.
   */
  function PinkOutput(f: PinkFilter, x: real): real
    requires f.Valid()
  {
    PinkB[0] * x
      + PinkB[1] * f.x[1] + PinkB[2] * f.x[2] + PinkB[3] * f.x[3]
      - PinkA[1] * f.y[1] - PinkA[2] * f.y[2] - PinkA[3] * f.y[3]
  }

  /**
   * `Filter3dbPerOctave`: store the input in x[0], accumulate the taps 1..3
   * onto b0 x, store the output in y[0], then shift both histories up by
   * one slot from the top down.
   */
  method Filter3dbPerOctave(f: PinkFilter, input: real) returns (out: real, next: PinkFilter)
    requires f.Valid()
    ensures next.Valid()
    ensures out == PinkOutput(f, input)
    ensures next.x == [input, input, f.x[1], f.x[2]] && next.y == [out, out, f.y[1], f.y[2]]
  {
    var x := f.x[0 := input];
    var y := f.y;
    out := PinkB[0] * x[0];
    var i := 1;
    while i < 4
      invariant 1 <= i <= 4
      invariant out + TapsFrom(PinkFilter(x, y), i) == PinkB[0] * input + TapsFrom(PinkFilter(x, y), 1)
    {
      out := out + (PinkB[i] * x[i] - PinkA[i] * y[i]);
      i := i + 1;
    }
    y := y[0 := out];
    var k := 3;
    while k > 0
      invariant 0 <= k <= 3 && |x| == 4 && |y| == 4
      invariant x[0] == input && y[0] == out
      invariant forall j :: 0 < j <= k ==> x[j] == f.x[j] && y[j] == f.y[j]
      invariant forall j :: k < j < 4 ==> x[j] == (if j == 1 then input else f.x[j - 1])
      invariant forall j :: k < j < 4 ==> y[j] == (if j == 1 then out else f.y[j - 1])
    {
      x := x[k := x[k - 1]];
      y := y[k := y[k - 1]];
      k := k - 1;
    }
    next := PinkFilter(x, y);
    TapsExpand(PinkFilter(f.x[0 := input], f.y));
  }

  /** The accumulated taps spelled out. */
  lemma TapsExpand(f: PinkFilter)
    requires f.Valid()
    ensures TapsFrom(f, 1) == Tap(f, 1) + Tap(f, 2) + Tap(f, 3)
  {
  }

  /**
   * The filter is linear: the output for the sum of two histories and two
   * inputs is the sum of the outputs.
   */
  lemma PinkSuperposition(f: PinkFilter, g: PinkFilter, x: real, x': real)
    requires f.Valid() && g.Valid()
    ensures var h := PinkFilter(seq(4, i requires 0 <= i < 4 => f.x[i] + g.x[i]), seq(4, i requires 0 <= i < 4 => f.y[i] + g.y[i]));
      PinkOutput(h, x + x') == PinkOutput(f, x) + PinkOutput(g, x')
  {
  }

  /**
   * Zero history and zero input give zero output, and the history a step
   * leaves (input and output shifted in, as `Filter3dbPerOctave` ensures)
   * is zero again.
   */
  lemma PinkSilence()
    ensures PinkOutput(NewPinkFilter, 0.0) == 0.0
    ensures NewPinkFilter.Valid()
    ensures var f := NewPinkFilter;
      var out := PinkOutput(f, 0.0);
      PinkFilter([0.0, 0.0, f.x[1], f.x[2]], [out, out, f.y[1], f.y[2]]) == NewPinkFilter
  {
  }

  /**
   * At DC the filter's gain is (b0 + b1 + b2 + b3) / (1 + a1 + a2 + a3):
   * a history holding input c and output c times that gain everywhere is
   * reproduced.
   */
  lemma PinkDcGain(c: real)
    ensures var gain := (PinkB[0] + PinkB[1] + PinkB[2] + PinkB[3]) / (PinkA[0] + PinkA[1] + PinkA[2] + PinkA[3]);
      var f := PinkFilter([c, c, c, c], [c * gain, c * gain, c * gain, c * gain]);
      PinkOutput(f, c) == c * gain
  {
    var gain := (PinkB[0] + PinkB[1] + PinkB[2] + PinkB[3]) / (PinkA[0] + PinkA[1] + PinkA[2] + PinkA[3]);
    var sa := PinkA[0] + PinkA[1] + PinkA[2] + PinkA[3];
    var sb := PinkB[0] + PinkB[1] + PinkB[2] + PinkB[3];
    assert sa != 0.0;
    assert gain * sa == sb;
    DcAlgebra(c, gain, sa, sb);
  }

  lemma DcAlgebra(c: real, gain: real, sa: real, sb: real)
    requires gain * sa == sb
    requires sa == PinkA[0] + PinkA[1] + PinkA[2] + PinkA[3]
    requires sb == PinkB[0] + PinkB[1] + PinkB[2] + PinkB[3]
    ensures PinkB[0] * c + PinkB[1] * c + PinkB[2] * c + PinkB[3] * c
      - PinkA[1] * (c * gain) - PinkA[2] * (c * gain) - PinkA[3] * (c * gain) == c * gain
  {
    assert PinkB[0] * c + PinkB[1] * c + PinkB[2] * c + PinkB[3] * c == c * sb;
    assert PinkA[1] * (c * gain) + PinkA[2] * (c * gain) + PinkA[3] * (c * gain) == (c * gain) * (sa - 1.0);
    assert c * sb == c * (gain * sa);
  }

  // ---------------------------------------------------------------------
  // detune::linear
  // ---------------------------------------------------------------------

  /** The default reference frequency f0 of `detune::linear` (middle C), in hertz. */
  const DefaultF0: real := 261.63

  /** The lower clamp of the log's argument. */
  const MinArgument: real := 0.00000001

  /** ln 2, the `static const` of `detune::linear`. */
  function Ln2(e: Elementary): real
  {
    e.log(2.0)
  }

  /** exp and log, applied. */
  function Exp(e: Elementary, a: real): real
  {
    e.exp(a)
  }

  function Log(e: Elementary, a: real): real
  {
    e.log(a)
  }

  /** v ln 2, the exponent of 2^v. */
  function TimesLn2(e: Elementary, v: real): real
  {
    v * Ln2(e)
  }

  /** 2^v computed as exp(v ln 2), as the code does. */
  function Pow2(e: Elementary, v: real): real
  {
    Exp(e, TimesLn2(e, v))
  }

  /**
   * The log's argument, det / f0 + 2^vOct, clamped to at least 1e-8 so the
   * log is always defined.
   */
  function DetuneArgument(e: Elementary, vOct: real, det: real, f0: real): (v: real)
    requires f0 != 0.0
    ensures v >= MinArgument
    ensures det / f0 + Pow2(e, vOct) >= MinArgument ==> v == det / f0 + Pow2(e, vOct)
    ensures det / f0 + Pow2(e, vOct) < MinArgument ==> v == MinArgument
  {
    Max(MinArgument, det / f0 + Pow2(e, vOct))
  }

  /**
   * `detune::linear`: log2 of the clamped argument. With f0 == 0 the C++
   * quotient det / f0 is -inf for det < 0 and NaN for det == 0, and
   * `std::max(1e-8, v)` returns 1e-8 for both, so the output is log2(1e-8);
   * for det > 0 it is +inf and the log is infinite, which yields None. A
   * zero ln 2 (impossible for the real log, but not excluded by the
   * uninterpreted one) also yields None.
   */
  function DetuneLinear(e: Elementary, vOct: real, det: real, f0: real): (r: Option<real>)
    ensures r.None? <==> Ln2(e) == 0.0 || (f0 == 0.0 && det > 0.0)
    ensures r.Some? && f0 != 0.0 ==> TimesLn2(e, r.value) == Log(e, DetuneArgument(e, vOct, det, f0))
    ensures r.Some? && f0 == 0.0 ==> TimesLn2(e, r.value) == Log(e, MinArgument)
  {
    var ln2 := Ln2(e);
    if ln2 == 0.0 then None
    else if f0 == 0.0 then
      if det > 0.0 then None
      else
        var out := Log(e, MinArgument) / ln2;
        assert out * ln2 == Log(e, MinArgument);
        Some(out)
    else
      var out := Log(e, DetuneArgument(e, vOct, det, f0)) / ln2;
      assert out * ln2 == Log(e, DetuneArgument(e, vOct, det, f0));
      Some(out)
  }

  /**
   * The documented promise: converted to a frequency by f(v) = f0 2^v, the
   * output is f(vOct) + det, whenever the unclamped argument reaches 1e-8.
   */
  lemma DetuneAddsFrequency(e: Elementary, vOct: real, det: real, f0: real)
    requires ExpLogInverse(e) && f0 != 0.0
    requires det / f0 + Pow2(e, vOct) >= MinArgument
    ensures DetuneLinear(e, vOct, det, f0).Some?
    ensures f0 * Pow2(e, DetuneLinear(e, vOct, det, f0).value) == f0 * Pow2(e, vOct) + det
  {
    var v := DetuneArgument(e, vOct, det, f0);
    var out := DetuneLinear(e, vOct, det, f0).value;
    ExpOfLog(e, v);
    Pow2OfLog2(e, out, v);
    assert f0 * (det / f0) == det;
  }

  /** The promise with the default reference frequency, middle C. */
  lemma DetuneAddsFrequencyAtMiddleC(e: Elementary, vOct: real, det: real)
    requires ExpLogInverse(e)
    requires det / DefaultF0 + Pow2(e, vOct) >= MinArgument
    ensures DetuneLinear(e, vOct, det, DefaultF0).Some?
    ensures DefaultF0 * Pow2(e, DetuneLinear(e, vOct, det, DefaultF0).value) == DefaultF0 * Pow2(e, vOct) + det
  {
    DetuneAddsFrequency(e, vOct, det, DefaultF0);
  }

  /** With no detune the pitch is returned unchanged, as long as 2^vOct reaches 1e-8. */
  lemma DetuneIdentity(e: Elementary, vOct: real, f0: real)
    requires ExpLogInverse(e) && f0 != 0.0
    requires Pow2(e, vOct) >= MinArgument
    ensures DetuneLinear(e, vOct, 0.0, f0) == Some(vOct)
  {
    var v := DetuneArgument(e, vOct, 0.0, f0);
    assert 0.0 / f0 + Pow2(e, vOct) == Pow2(e, vOct);
    assert v == Pow2(e, vOct);
    LogOfPow2(e, vOct);
    var out := DetuneLinear(e, vOct, 0.0, f0).value;
    assert TimesLn2(e, out) == TimesLn2(e, vOct);
    CancelFactor(Ln2(e), out, vOct);
  }

  lemma ExpOfLog(e: Elementary, v: real)
    requires ExpLogInverse(e) && v > 0.0
    ensures Exp(e, Log(e, v)) == v && Ln2(e) > 0.0
  {
  }

  /** 2^out = v when out ln 2 = log v and exp(log v) = v. */
  lemma Pow2OfLog2(e: Elementary, out: real, v: real)
    requires Exp(e, Log(e, v)) == v && TimesLn2(e, out) == Log(e, v)
    ensures Pow2(e, out) == v
  {
  }


  /** log(2^v) = v ln 2. */
  lemma LogOfPow2(e: Elementary, vOct: real)
    requires ExpLogInverse(e)
    ensures Log(e, Pow2(e, vOct)) == TimesLn2(e, vOct) && Ln2(e) > 0.0
  {
  }

  lemma CancelFactor(k: real, p: real, q: real)
    requires k != 0.0 && p * k == q * k
    ensures p == q
  {
    assert p == (p * k) / k;
  }

  /**
   * Below the clamp the output no longer depends on the pitch or the
   * detune: it is log2(1e-8).
   */
  lemma DetuneClamped(e: Elementary, vOct: real, det: real, f0: real)
    requires f0 != 0.0 && Ln2(e) != 0.0
    requires det / f0 + Pow2(e, vOct) < MinArgument
    ensures TimesLn2(e, DetuneLinear(e, vOct, det, f0).value) == Log(e, MinArgument)
  {
  }

  /**
   * A zero reference frequency with a non-positive detune gives the same
   * output as any call below the clamp: the C++ clamp swallows the -inf or
   * NaN quotient.
   */
  lemma DetuneZeroReferenceIsClamped(e: Elementary, vOct: real, det: real, vOct': real, det': real, f0': real)
    requires Ln2(e) != 0.0 && det <= 0.0
    requires f0' != 0.0 && det' / f0' + Pow2(e, vOct') < MinArgument
    ensures DetuneLinear(e, vOct, det, 0.0) == DetuneLinear(e, vOct', det', f0')
  {
    var a := DetuneLinear(e, vOct, det, 0.0).value;
    var b := DetuneLinear(e, vOct', det', f0').value;
    DetuneClamped(e, vOct', det', f0');
    CancelFactor(Ln2(e), a, b);
  }
}
