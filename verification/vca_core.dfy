/**
 * The VCA engine: an audio path and a CV path, each a nonlinear one-pole
 * integrator (OTA or transistor model, one kind for both), run at an
 * oversampled rate. Each oversampled tick steps both paths together with
 * `StepDual` and multiplies their outputs; a memory-1 discrete-gradient tanh
 * then saturates the result to the 12 V supply.
 *
 * The noise added to the audio input (a pink noise sample times a standard
 * deviation derived from the sample rate) is passed in as a parameter.
 */
module VcaCore {
  import opened Scalars
  import opened DiscreteGradient
  import opened Secant
  import opened Resampling
  import opened Vectors
  import Ota = OtaIntegrator
  import Tr = TransistorIntegrator

  /** `_noiseLevel`: the noise power the standard deviation is derived from. */
  const NoiseLevel: real := 0.0000000001

  /** `_cvScaling`: the CV is multiplied by this before its path and divided after. */
  const CvScaling: real := 3.0

  /** `_powerSupplyVoltage`: the output stage saturates to +-12 V. */
  const PowerSupplyVoltage: real := 12.0

  /** The VCA's memory-1 `TanhBlock`: the previous argument `_x1`, initially 0. */
  datatype TanhStage = TanhStage(x1: real)

  /** `TanhBlock::Process` on one sample: the discrete gradient against the previous argument. */
  function TanhStageProcess(e: Elementary, t: TanhStage, x: real): (r: (real, TanhStage))
    ensures r.1 == TanhStage(x)
  {
    (Value(e, Double, x, t.x1), TanhStage(x))
  }

  /** The two integrators of the paths: [0] audio, [1] CV. */
  datatype Models = OtaPair(otas: seq<Ota.Ota>) | TransistorPair(transistors: seq<Tr.Transistor>)
  {
    predicate Valid()
    {
      match this
      case OtaPair(os) => |os| == 2
      case TransistorPair(ts) => |ts| == 2
    }

    /** `Model::DefaultRolloff` of the model kind. */
    function DefaultRolloff(): real
    {
      match this
      case OtaPair(_) => Ota.DefaultRolloff
      case TransistorPair(_) => Tr.DefaultRolloff
    }
  }

  /** Path j's output when it is stepped on its own with `Step`, if that step is solved. */
  function SingleOutput(e: Elementary, ms: Models, j: nat, x: real, g: real, fuel: nat): Option<real>
    requires ms.Valid() && j < 2
  {
    match ms
    case OtaPair(os) =>
      var r := Ota.Step(e, os[j], x, g, fuel);
      if r.Solved? then Some(r.out) else None
    case TransistorPair(ts) =>
      var r := Tr.Step(e, ts[j], x, g, fuel);
      if r.Solved? then Some(r.out) else None
  }

  /**
   * `Model::StepDual` on the two paths. A path whose solve is undefined or
   * does not exit leaves the tick without a result (the C++ loop would spin
   * on NaN values). Each path's output is the one its own `Step` gives.
   */
  function StepPair(e: Elementary, ms: Models, xs: seq<real>, gs: seq<real>, fuel: nat): (r: Option<(seq<real>, Models)>)
    requires ms.Valid() && |xs| == 2 && |gs| == 2
    ensures r.Some? <==> SingleOutput(e, ms, 0, xs[0], gs[0], fuel).Some? && SingleOutput(e, ms, 1, xs[1], gs[1], fuel).Some?
    ensures r.Some? ==> |r.value.0| == 2 && r.value.1.Valid() && r.value.1.OtaPair? == ms.OtaPair?
    ensures r.Some? ==> r.value.0 == [SingleOutput(e, ms, 0, xs[0], gs[0], fuel).value, SingleOutput(e, ms, 1, xs[1], gs[1], fuel).value]
    ensures r.Some? && ms.OtaPair? ==>
      r.value.1 == OtaPair([Ota.Step(e, ms.otas[0], xs[0], gs[0], fuel).next, Ota.Step(e, ms.otas[1], xs[1], gs[1], fuel).next])
    ensures r.Some? && ms.TransistorPair? ==>
      r.value.1 == TransistorPair([Tr.Step(e, ms.transistors[0], xs[0], gs[0], fuel).next, Tr.Step(e, ms.transistors[1], xs[1], gs[1], fuel).next])
  {
    match ms
    case OtaPair(os) =>
      Ota.StepDualIsTwoSteps(e, os, xs, gs, fuel);
      var r := Ota.StepDual(e, os, xs, gs, fuel);
      if r[0].Solved? && r[1].Solved? then Some(([r[0].out, r[1].out], OtaPair([r[0].next, r[1].next]))) else None
    case TransistorPair(ts) =>
      Tr.StepDualIsTwoSteps(e, ts, xs, gs, fuel);
      var r := Tr.StepDual(e, ts, xs, gs, fuel);
      if r[0].Solved? && r[1].Solved? then Some(([r[0].out, r[1].out], TransistorPair([r[0].next, r[1].next]))) else None
  }

  /**
   * `VCACore`: the oversampled rate (0 until set), the two resamplers, the
   * two paths with their rolloffs and prewarped gains (None until the rate
   * is set, or when it was set to 0) and the output stage.
   */
  datatype Vca = Vca(
    sampleRate: real,
    audioResampler: Resampler,
    cvResampler: Resampler,
    models: Models,
    rolloffs: seq<real>,
    gains: Option<seq<real>>,
    outputStage: TanhStage)
  {
    predicate Valid()
    {
      && audioResampler.Valid() && cvResampler.Valid() && cvResampler.Factor() == audioResampler.Factor()
      && models.Valid() && |rolloffs| == 2
      && (gains.Some? <==> sampleRate != 0.0)
      && (gains.Some? ==> |gains.value| == 2)
    }
  }

  /** The template argument `Model` of the C++ class. */
  datatype ModelKind = OtaModel | TransistorModel

  /** Two value-initialised integrators of the given kind. */
  function InitialModels(kind: ModelKind): (ms: Models)
    ensures ms.Valid() && ModelsAtRest(ms)
    ensures ms.OtaPair? <==> kind == OtaModel
  {
    match kind
    case OtaModel => OtaPair([Ota.Initial, Ota.Initial])
    case TransistorModel => TransistorPair([Tr.Initial, Tr.Initial])
  }

  /**
   * The constructor: two resamplers from one factory, both paths
   * value-initialised (at rest) and at the model's `DefaultRolloff`, no
   * sample rate yet and the output stage at 0.
   */
  function NewVca(make: Resampler, kind: ModelKind): (v: Vca)
    requires make.Valid()
    ensures v.Valid() && v.sampleRate == 0.0 && v.gains.None?
    ensures ModelsAtRest(v.models) && (v.models.OtaPair? <==> kind == OtaModel)
    ensures v.rolloffs == [v.models.DefaultRolloff(), v.models.DefaultRolloff()]
    ensures kind == OtaModel ==> v.rolloffs[0] == Ota.DefaultRolloff
    ensures kind == TransistorModel ==> v.rolloffs[0] == Tr.DefaultRolloff
    ensures v.audioResampler == make && v.cvResampler == make && v.outputStage == TanhStage(0.0)
  {
    var models := InitialModels(kind);
    Vca(0.0, make, make, models, [models.DefaultRolloff(), models.DefaultRolloff()], None, TanhStage(0.0))
  }

  /**
   * `SetSampleRate`: the oversampled rate is f0 times the factor, and each
   * path's gain is prewarped, g = 2 tan(pi fc / rate).
   */
  function SetSampleRate(e: Elementary, v: Vca, f0: real): (r: Vca)
    requires v.Valid()
    ensures r.Valid() && r == v.(sampleRate := r.sampleRate, gains := r.gains)
    ensures r.sampleRate == f0 * (v.audioResampler.Factor() as real)
    ensures r.gains.Some? ==> forall i :: 0 <= i < 2 ==> r.gains.value[i] == 2.0 * e.tan(PI * v.rolloffs[i] / r.sampleRate)
  {
    var rate := f0 * (v.audioResampler.Factor() as real);
    var gains := if rate == 0.0 then None
      else Some(seq(2, i requires 0 <= i < 2 => 2.0 * e.tan(PI / 2.0 * v.rolloffs[i] / (0.5 * rate))));
    assert forall i :: 0 <= i < 2 && rate != 0.0 ==> PI / 2.0 * v.rolloffs[i] / (0.5 * rate) == PI * v.rolloffs[i] / rate;
    v.(sampleRate := rate, gains := gains)
  }

  /** A tick's result: the audio path's output times the CV path's, with the CV scaling undone. */
  function TickOutput(a: real, c: real): real
  {
    a * c / CvScaling
  }

  /** The output stage's argument: the gained sample relative to the supply voltage. */
  function StageArgument(finalGain: real, a: real): real
  {
    finalGain * a / PowerSupplyVoltage
  }

  /**
   * The tick loop of the private `Step`: tick i steps both paths on
   * (audio[i], cv[i]) with the paths left by tick i-1, and yields
   * audio * cv / 3.
   */
  function Ticks(e: Elementary, ms: Models, audio: seq<real>, cv: seq<real>, gs: seq<real>, fuel: nat)
    : (r: Option<(seq<real>, Models)>)
    requires ms.Valid() && |cv| == |audio| && |gs| == 2
    ensures r.Some? ==> |r.value.0| == |audio| && r.value.1.Valid() && r.value.1.OtaPair? == ms.OtaPair?
    ensures |audio| > 0 ==>
      var first := StepPair(e, ms, [audio[0], cv[0]], gs, fuel);
      (r.Some? ==> first.Some? && r.value.0[0] == TickOutput(first.value.0[0], first.value.0[1]))
    decreases |audio|
  {
    if |audio| == 0 then Some(([], ms))
    else
      var first := StepPair(e, ms, [audio[0], cv[0]], gs, fuel);
      if first.None? then None
      else
        var rest := Ticks(e, first.value.1, audio[1..], cv[1..], gs, fuel);
        if rest.None? then None
        else Some(([TickOutput(first.value.0[0], first.value.0[1])] + rest.value.0, rest.value.1))
  }

  /** The output stage over a block: 12 tanh-stage(finalGain a / 12), sample by sample. */
  function OutputStage(e: Elementary, t: TanhStage, audio: seq<real>, finalGain: real): (r: (seq<real>, TanhStage))
    ensures |r.0| == |audio|
    ensures |audio| > 0 ==> r.1 == TanhStage(StageArgument(finalGain, audio[|audio| - 1]))
    ensures |audio| == 0 ==> r.1 == t
    decreases |audio|
  {
    if |audio| == 0 then ([], t)
    else
      var first := TanhStageProcess(e, t, StageArgument(finalGain, audio[0]));
      var rest := OutputStage(e, first.1, audio[1..], finalGain);
      ([PowerSupplyVoltage * first.0] + rest.0, rest.1)
  }

  /** The per-sample arguments of the output stage. */
  function StageArguments(audio: seq<real>, finalGain: real): (r: seq<real>)
    ensures |r| == |audio|
    ensures forall i :: 0 <= i < |audio| ==> r[i] == StageArgument(finalGain, audio[i])
  {
    seq(|audio|, i requires 0 <= i < |audio| => StageArgument(finalGain, audio[i]))
  }

  /** The outcome of a public `Step`. */
  datatype StepResult = Output(value: real, next: Vca) | NotInitialised | Unresolved

  /**
   * `Step`: fails when the rate is not positive (the C++ throws). Otherwise
   * the noisy audio and the scaled CV are upsampled, the ticks run, the
   * output stage saturates them and only the audio resampler downsamples:
   * the CV resampler is only ever upsampled.
   */
  function Step(e: Elementary, v: Vca, audio: real, cv: real, finalGain: real, noise: real, fuel: nat): (r: StepResult)
    requires v.Valid()
    ensures r.NotInitialised? <==> v.sampleRate <= 0.0
    ensures r.Output? ==> r.next.Valid() && r.next.sampleRate == v.sampleRate && r.next.gains == v.gains
    ensures r.Output? ==> r.next.cvResampler == Upsample(v.cvResampler, CvScaling * cv).1
    ensures r.Output? ==> r.next.models.OtaPair? == v.models.OtaPair?
  {
    if v.sampleRate <= 0.0 then NotInitialised
    else
      var ua := Upsample(v.audioResampler, noise + audio);
      var uc := Upsample(v.cvResampler, CvScaling * cv);
      match Ticks(e, v.models, ua.0, uc.0, v.gains.value, fuel)
      case None => Unresolved
      case Some(ticks) =>
        var stage := OutputStage(e, v.outputStage, ticks.0, finalGain);
        var down := Downsample(ua.1, stage.0);
        Output(down.0, v.(audioResampler := down.1, cvResampler := uc.1, models := ticks.1, outputStage := stage.1))
  }

  // ---------------------------------------------------------------------
  // Properties
  // ---------------------------------------------------------------------

  /**
   * The output stage is 12 times the discrete-gradient stream of its
   * arguments, the first paired with the stage's memory: the memory-1
   * block remembers exactly the previous argument.
   */
  lemma {:induction false} OutputStageIsStream(e: Elementary, t: TanhStage, audio: seq<real>, finalGain: real)
    ensures OutputStage(e, t, audio, finalGain).0
      == Scale(PowerSupplyVoltage, StreamValue(e, Double, t.x1, StageArguments(audio, finalGain)))
    decreases |audio|
  {
    if |audio| > 0 {
      var args := StageArguments(audio, finalGain);
      var tailArgs := StageArguments(audio[1..], finalGain);
      forall k | 0 <= k < |tailArgs| ensures tailArgs[k] == args[k + 1] {
        assert audio[1..][k] == audio[k + 1];
      }
      assert tailArgs == args[1..];
      var a0 := args[0];
      OutputStageIsStream(e, TanhStage(a0), audio[1..], finalGain);
      var tail := StreamValue(e, Double, a0, tailArgs);
      StreamCons(e, t.x1, args);
      ScaleCons(PowerSupplyVoltage, Value(e, Double, a0, t.x1), tail);
    }
  }

  /** The stream unfolded once: the first value, then the stream from the first argument on. */
  lemma StreamCons(e: Elementary, prev: real, xs: seq<real>)
    requires |xs| > 0
    ensures StreamValue(e, Double, prev, xs) == [Value(e, Double, xs[0], prev)] + StreamValue(e, Double, xs[0], xs[1..])
  {
    var l := StreamValue(e, Double, prev, xs);
    var r := [Value(e, Double, xs[0], prev)] + StreamValue(e, Double, xs[0], xs[1..]);
    forall i | 1 <= i < |xs| ensures l[i] == r[i] {
      if i > 1 {
        assert xs[1..][i - 1] == xs[i] && xs[1..][i - 2] == xs[i - 1];
      }
    }
  }

  lemma ScaleCons(k: real, x: real, xs: seq<real>)
    ensures Scale(k, [x] + xs) == [k * x] + Scale(k, xs)
  {
    var l := Scale(k, [x] + xs);
    var r := [k * x] + Scale(k, xs);
    forall i | 0 <= i < |l| ensures l[i] == r[i] {
      if i > 0 {
        assert ([x] + xs)[i] == xs[i - 1];
      }
    }
  }

  /** With tanh(0) = 0, a silent block through a stage resting at 0 stays silent and at rest. */
  lemma SilentOutputStage(e: Elementary, n: nat, finalGain: real)
    requires TanhZero(e)
    ensures OutputStage(e, TanhStage(0.0), seq(n, i => 0.0), finalGain) == (seq(n, i => 0.0), TanhStage(0.0))
    decreases n
  {
    ValueOnDiagonal(e, Double, 0.0);
    if n > 0 {
      var zeros := seq(n, i => 0.0);
      assert zeros[0] == 0.0 && StageArgument(finalGain, 0.0) == 0.0;
      ZerosSplit(n);
      SilentOutputStage(e, n - 1, finalGain);
    }
  }

  /**
   * One tick with both OTA paths settled on their inputs (audio a, scaled
   * CV 3c) passes both through, and the tick yields a c: the CV scaling is
   * undone exactly.
   */
  lemma SettledOtaTick(e: Elementary, a: real, c: real, gs: seq<real>, fuel: nat)
    requires TanhZero(e) && LogCoshMinimalAtZero(e)
    requires |gs| == 2 && gs[0] >= 0.0 && gs[1] >= 0.0
    ensures var ms := OtaPair([Ota.Ota(0.0, a), Ota.Ota(0.0, CvScaling * c)]);
      StepPair(e, ms, [a, CvScaling * c], gs, fuel) == Some(([a, CvScaling * c], ms))
    ensures TickOutput(a, CvScaling * c) == a * c
  {
    var ms := OtaPair([Ota.Ota(0.0, a), Ota.Ota(0.0, CvScaling * c)]);
    Ota.SettledPassesInput(e, a, gs[0], fuel);
    Ota.SettledPassesInput(e, CvScaling * c, gs[1], fuel);
    assert SingleOutput(e, ms, 0, a, gs[0], fuel) == Some(a);
    assert SingleOutput(e, ms, 1, CvScaling * c, gs[1], fuel) == Some(CvScaling * c);
    ScalingUndone(a, c);
  }

  lemma ScalingUndone(a: real, c: real)
    ensures TickOutput(a, CvScaling * c) == a * c
  {
    assert a * (CvScaling * c) == CvScaling * (a * c);
  }

  /** Both paths at their initial state. */
  predicate ModelsAtRest(ms: Models)
  {
    ms == OtaPair([Ota.Initial, Ota.Initial]) || ms == TransistorPair([Tr.Initial, Tr.Initial])
  }

  lemma ZerosSplit(n: nat)
    requires n > 0
    ensures seq(n, i => 0.0)[0] == 0.0 && seq(n, i => 0.0)[1..] == seq(n - 1, i => 0.0)
    ensures seq(n, i => 0.0) == [0.0] + seq(n - 1, i => 0.0)
  {
    assert seq(n, i => 0.0) == [0.0] + seq(n - 1, i => 0.0);
  }

  /** A silent tick leaves resting paths at rest and yields silence on both. */
  lemma RestingTick(e: Elementary, ms: Models, gs: seq<real>, fuel: nat)
    requires TanhZero(e) && LogCoshMinimalAtZero(e)
    requires ModelsAtRest(ms) && |gs| == 2 && gs[0] >= 0.0 && gs[1] >= 0.0
    ensures StepPair(e, ms, [0.0, 0.0], gs, fuel) == Some(([0.0, 0.0], ms))
  {
    if ms.OtaPair? {
      Ota.SettledPassesInput(e, 0.0, gs[0], fuel);
      Ota.SettledPassesInput(e, 0.0, gs[1], fuel);
      assert SingleOutput(e, ms, 0, 0.0, gs[0], fuel) == Some(0.0);
      assert SingleOutput(e, ms, 1, 0.0, gs[1], fuel) == Some(0.0);
    } else {
      Tr.RestStaysAtRest(e, gs[0], fuel);
      Tr.RestStaysAtRest(e, gs[1], fuel);
      assert SingleOutput(e, ms, 0, 0.0, gs[0], fuel) == Some(0.0);
      assert SingleOutput(e, ms, 1, 0.0, gs[1], fuel) == Some(0.0);
    }
  }

  /** Ticks unfolded once: the first tick, then the rest from where it left the paths. */
  lemma TicksCons(e: Elementary, ms: Models, audio: seq<real>, cv: seq<real>, gs: seq<real>, fuel: nat,
                  first: (seq<real>, Models), rest: (seq<real>, Models))
    requires ms.Valid() && |cv| == |audio| && |gs| == 2 && |audio| > 0
    requires StepPair(e, ms, [audio[0], cv[0]], gs, fuel) == Some(first)
    requires Ticks(e, first.1, audio[1..], cv[1..], gs, fuel) == Some(rest)
    ensures Ticks(e, ms, audio, cv, gs, fuel) == Some(([TickOutput(first.0[0], first.0[1])] + rest.0, rest.1))
  {
  }

  /** Silence through paths a silent tick leaves as they were: every tick yields 0. */
  lemma {:induction false} SilentTicks(e: Elementary, ms: Models, n: nat, gs: seq<real>, fuel: nat)
    requires ms.Valid() && |gs| == 2
    requires StepPair(e, ms, [0.0, 0.0], gs, fuel) == Some(([0.0, 0.0], ms))
    ensures Ticks(e, ms, seq(n, i => 0.0), seq(n, i => 0.0), gs, fuel) == Some((seq(n, i => 0.0), ms))
    decreases n
  {
    if n > 0 {
      var zeros := seq(n, i => 0.0);
      var rest := seq(n - 1, i => 0.0);
      ZerosSplit(n);
      SilentTicks(e, ms, n - 1, gs, fuel);
      TicksCons(e, ms, zeros, zeros, gs, fuel, ([0.0, 0.0], ms), (rest, ms));
      assert TickOutput(0.0, 0.0) == 0.0;
    }
  }

  /**
   * A VCA at rest (resamplers, paths and output stage all at zero, gains
   * non-negative) fed silence and no noise outputs 0 and stays exactly as
   * it was, whatever the final gain.
   */
  lemma SilenceAtRest(e: Elementary, v: Vca, finalGain: real, fuel: nat)
    requires TanhZero(e) && LogCoshMinimalAtZero(e)
    requires v.Valid() && v.sampleRate > 0.0
    requires v.audioResampler.AtDc(0.0) && v.cvResampler.AtDc(0.0)
    requires ModelsAtRest(v.models) && v.outputStage == TanhStage(0.0)
    requires v.gains.value[0] >= 0.0 && v.gains.value[1] >= 0.0
    ensures Step(e, v, 0.0, 0.0, finalGain, 0.0, fuel) == Output(0.0, v)
  {
    var n := v.audioResampler.Factor();
    ZeroInZeroOut(v.audioResampler);
    ZeroInZeroOut(v.cvResampler);
    assert CvScaling * 0.0 == 0.0 && 0.0 + 0.0 == 0.0;
    RestingTick(e, v.models, v.gains.value, fuel);
    SilentTicks(e, v.models, n, v.gains.value, fuel);
    SilentOutputStage(e, n, finalGain);
  }

  /**
   * A freshly constructed VCA, from a factory whose resamplers start at
   * rest, fed silence once its rate is set outputs 0 and does not move,
   * as long as the prewarped gains are non-negative.
   */
  lemma FreshVcaSilent(e: Elementary, make: Resampler, kind: ModelKind, f0: real, finalGain: real, fuel: nat)
    requires TanhZero(e) && LogCoshMinimalAtZero(e)
    requires make.Valid() && make.AtDc(0.0)
    requires f0 * (make.Factor() as real) > 0.0
    requires var v := SetSampleRate(e, NewVca(make, kind), f0); v.gains.value[0] >= 0.0 && v.gains.value[1] >= 0.0
    ensures var v := SetSampleRate(e, NewVca(make, kind), f0);
      Step(e, v, 0.0, 0.0, finalGain, 0.0, fuel) == Output(0.0, v)
  {
    SilenceAtRest(e, SetSampleRate(e, NewVca(make, kind), f0), finalGain, fuel);
  }

  /** The step is unresolved exactly when some tick of the upsampled block is. */
  lemma StepUnresolved(e: Elementary, v: Vca, audio: real, cv: real, finalGain: real, noise: real, fuel: nat)
    requires v.Valid() && v.sampleRate > 0.0
    ensures Step(e, v, audio, cv, finalGain, noise, fuel).Unresolved?
      <==> Ticks(e, v.models, Upsample(v.audioResampler, noise + audio).0,
                 Upsample(v.cvResampler, CvScaling * cv).0, v.gains.value, fuel).None?
  {
  }

  /**
   * The VCA's output is the audio resampler's decimation of 12 times the
   * discrete-gradient tanh stream of the ticks' gained values.
   */
  lemma StepIsPipeline(e: Elementary, v: Vca, audio: real, cv: real, finalGain: real, noise: real, fuel: nat,
                       ticks: seq<real>, models: Models)
    requires v.Valid() && v.sampleRate > 0.0
    requires Ticks(e, v.models, Upsample(v.audioResampler, noise + audio).0,
                   Upsample(v.cvResampler, CvScaling * cv).0, v.gains.value, fuel) == Some((ticks, models))
    ensures var s := StreamValue(e, Double, v.outputStage.x1, StageArguments(ticks, finalGain));
      Step(e, v, audio, cv, finalGain, noise, fuel).Output?
      && Step(e, v, audio, cv, finalGain, noise, fuel).value
           == Downsample(Upsample(v.audioResampler, noise + audio).1, Scale(PowerSupplyVoltage, s)).0
  {
    OutputStageIsStream(e, v.outputStage, ticks, finalGain);
  }
}
