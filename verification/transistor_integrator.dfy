/**
 * The one-pole transistor-ladder integrator dy/dt = w_c (tanh x - tanh y),
 * discretised with the second-order discrete gradient of tanh on both sides
 * and solved with the secant method for the new output y:
 *   F(y) = g Grad2[tanh](y, y1) - g phiX + y - y1 = 0,
 * where phiX = Grad2[tanh](x, x1) is the processed input and y1, x1 the
 * previous output and input.
 */
module TransistorIntegrator {
  import opened Scalars
  import opened DiscreteGradient
  import opened Secant

  /** `DefaultRolloff`, in hertz. */
  const DefaultRolloff: real := 20000.0

  /** The model's memory: previous output `_y1` and previous input `_x1`. */
  datatype Transistor = Transistor(y1: real, x1: real)

  /** The default constructor: both members start at zero. */
  const Initial: Transistor := Transistor(0.0, 0.0)

  /** The processed input: the discrete gradient of tanh between the last two inputs. */
  function PhiX(e: Elementary, m: Transistor, x: real): real
  {
    Value(e, Double, x, m.x1)
  }

  /** `func`: the residual whose root is the new output. */
  function Residual(e: Elementary, y1: real, phiX: real, g: real): real -> real
  {
    y => g * Value(e, Double, y, y1) - g * phiX + y - y1
  }

  /** The first guess divides by 1 + g/2. */
  predicate GuessDefined(g: real)
  {
    1.0 + 0.5 * g != 0.0
  }

  /**
   * The first guess, the root of the residual linearised around the
   * previous output (the discrete gradient replaced by the mid-point).
   */
  function Guess(y1: real, phiX: real, g: real): (guess: real)
    requires GuessDefined(g)
    ensures g * (0.5 * (guess + y1)) - g * phiX + guess - y1 == 0.0
  {
    var d := 1.0 + 0.5 * g;
    var guess := (g * phiX + (1.0 - 0.5 * g) * y1) / d;
    assert guess * d == g * phiX + (1.0 - 0.5 * g) * y1;
    guess
  }

  /** The residual of each model of a batch. */
  function Residuals(e: Elementary, phis: seq<real>, gs: seq<real>, y1s: seq<real>): (Fs: seq<real -> real>)
    requires |gs| == |phis| && |y1s| == |phis|
    ensures |Fs| == |phis|
    ensures forall i :: 0 <= i < |phis| ==> Fs[i] == Residual(e, y1s[i], phis[i], gs[i])
  {
    seq(|phis|, i requires 0 <= i < |phis| => Residual(e, y1s[i], phis[i], gs[i]))
  }

  /**
   * `InitGuesses<N>`: for each model the linearised guess and its previous
   * output, separated by at least 1e-8, with the residual at both. `ok`
   * records which guesses were defined.
   */
  function InitGuesses(e: Elementary, phis: seq<real>, gs: seq<real>, y1s: seq<real>)
    : (r: (seq<real>, seq<real>, seq<bool>))
    requires |gs| == |phis| && |y1s| == |phis|
    ensures |r.0| == 2 * |phis| && |r.1| == 2 * |phis| && |r.2| == |phis|
    ensures forall i :: 0 <= i < |phis| ==> r.2[i] == GuessDefined(gs[i])
    ensures forall i :: 0 <= i < |phis| ==>
      var l := LaneAt(r.0, r.1, i);
      && l.u0 != l.u1
      && Consistent(Residual(e, y1s[i], phis[i], gs[i]), l)
      && l.u1 == Separate(l.u0, y1s[i])
      && (GuessDefined(gs[i]) ==> l.u0 == Guess(y1s[i], phis[i], gs[i]))
  {
    var n := |phis|;
    var ok := seq(n, i requires 0 <= i < n => GuessDefined(gs[i]));
    var guesses := seq(n, i requires 0 <= i < n => if ok[i] then Guess(y1s[i], phis[i], gs[i]) else 0.0);
    var lanes := InitLanes(Residuals(e, phis, gs, y1s), guesses, y1s);
    (lanes.0, lanes.1, ok)
  }

  /** `SecantIteration<N>` on the batch's residuals. */
  function SecantIteration(e: Elementary, phis: seq<real>, gs: seq<real>, y1s: seq<real>,
                           u: seq<real>, f: seq<real>, ok: seq<bool>): (r: (seq<real>, seq<real>, seq<bool>))
    requires |gs| == |phis| && |y1s| == |phis|
    requires |u| == 2 * |phis| && |f| == |u| && |ok| == |phis|
    ensures |r.0| == |u| && |r.1| == |u| && |r.2| == |phis|
    ensures forall i :: 0 <= i < |phis| ==> r.2[i] == (ok[i] && f[2 * i] != f[2 * i + 1])
    ensures forall i :: 0 <= i < |phis| && r.2[i] ==>
      LaneAt(r.0, r.1, i) == SecantStep(Residual(e, y1s[i], phis[i], gs[i]), LaneAt(u, f, i))
  {
    IterateLanes(Residuals(e, phis, gs, y1s), u, f, ok)
  }

  /**
   * `SolveSecantAndUpdateState`: run the solve loop from the given slots,
   * store the accepted root as `_y1` and the input as `_x1`, and return the
   * root as the output.
   */
  function SolveAndUpdate(e: Elementary, m: Transistor, x: real, phiX: real, g: real, l: Lane, fuel: nat)
    : (r: Outcome<Transistor>)
    ensures !r.Undefined?
    ensures r.Solved? ==> r.next == Transistor(r.out, x)
    ensures Exit(l) ==> r == Solved(l.u0, Transistor(l.u0, x))
  {
    match Solve(Residual(e, m.y1, phiX, g), l, fuel)
    case None => OutOfFuel
    case Some(a) => Solved(a.u0, Transistor(a.u0, x))
  }

  /**
   * Model i's solve loop, run from its slots after the shared secant step;
   * undefined when its guess or that step divided by zero.
   */
  function SolveSlot(e: Elementary, m: Transistor, x: real, phiX: real, g: real, it: (seq<real>, seq<real>, seq<bool>), i: nat, fuel: nat)
    : (r: Outcome<Transistor>)
    requires 2 * i + 1 < |it.0| && |it.1| == |it.0| && i < |it.2|
    ensures r.Undefined? <==> !it.2[i]
  {
    if !it.2[i] then Undefined else SolveAndUpdate(e, m, x, phiX, g, LaneAt(it.0, it.1, i), fuel)
  }

  /**
   * `Step`: process the input, then initial guesses, one unguarded secant
   * step and the solve loop. The step is undefined exactly when the guess or
   * that first secant step divides by zero.
   */
  function Step(e: Elementary, m: Transistor, x: real, g: real, fuel: nat): (r: Outcome<Transistor>)
    ensures r.Undefined? <==>
      (!GuessDefined(g) ||
        var F := Residual(e, m.y1, PhiX(e, m, x), g);
        var guess := Guess(m.y1, PhiX(e, m, x), g);
        F(guess) == F(Separate(guess, m.y1)))
    ensures r.Solved? ==> r.next == Transistor(r.out, x)
  {
    var phiX := PhiX(e, m, x);
    var init := InitGuesses(e, [phiX], [g], [m.y1]);
    var it := SecantIteration(e, [phiX], [g], [m.y1], init.0, init.1, init.2);
    SolveSlot(e, m, x, phiX, g, it, 0, fuel)
  }

  /**
   * `StepDual`: the two models share one interleaved `InitGuesses<2>` and
   * `SecantIteration<2>`, then each runs its own solve loop.
   */
  function StepDual(e: Elementary, ms: seq<Transistor>, xs: seq<real>, gs: seq<real>, fuel: nat)
    : (r: seq<Outcome<Transistor>>)
    requires |ms| == 2 && |xs| == 2 && |gs| == 2
    ensures |r| == 2
  {
    var y1s := [ms[0].y1, ms[1].y1];
    var phis := [PhiX(e, ms[0], xs[0]), PhiX(e, ms[1], xs[1])];
    var init := InitGuesses(e, phis, gs, y1s);
    var it := SecantIteration(e, phis, gs, y1s, init.0, init.1, init.2);
    [SolveSlot(e, ms[0], xs[0], phis[0], gs[0], it, 0, fuel), SolveSlot(e, ms[1], xs[1], phis[1], gs[1], it, 1, fuel)]
  }

  // ---------------------------------------------------------------------
  // Properties
  // ---------------------------------------------------------------------

  /** Each model of `StepDual` gets exactly the outcome of its own `Step`. */
  lemma StepDualIsTwoSteps(e: Elementary, ms: seq<Transistor>, xs: seq<real>, gs: seq<real>, fuel: nat)
    requires |ms| == 2 && |xs| == 2 && |gs| == 2
    ensures StepDual(e, ms, xs, gs, fuel) == [Step(e, ms[0], xs[0], gs[0], fuel), Step(e, ms[1], xs[1], gs[1], fuel)]
  {
    StepDualLane(e, ms, xs, gs, fuel, 0);
    StepDualLane(e, ms, xs, gs, fuel, 1);
  }

  /** Model j of `StepDual`: its slots and its defined flag are those `Step` computes alone. */
  lemma StepDualLane(e: Elementary, ms: seq<Transistor>, xs: seq<real>, gs: seq<real>, fuel: nat, j: nat)
    requires |ms| == 2 && |xs| == 2 && |gs| == 2 && j < 2
    ensures StepDual(e, ms, xs, gs, fuel)[j] == Step(e, ms[j], xs[j], gs[j], fuel)
  {
    var y1s := [ms[0].y1, ms[1].y1];
    var phis := [PhiX(e, ms[0], xs[0]), PhiX(e, ms[1], xs[1])];
    var init := InitGuesses(e, phis, gs, y1s);
    var it := SecantIteration(e, phis, gs, y1s, init.0, init.1, init.2);
    var m := ms[j];
    var one := InitGuesses(e, [phis[j]], [gs[j]], [m.y1]);
    var it1 := SecantIteration(e, [phis[j]], [gs[j]], [m.y1], one.0, one.1, one.2);
    assert LaneAt(one.0, one.1, 0) == LaneAt(init.0, init.1, j);
    assert it1.2[0] == it.2[j];
    if it.2[j] {
      assert LaneAt(it1.0, it1.1, 0) == LaneAt(it.0, it.1, j);
    }
  }

  /**
   * When the solve loop starts from slots consistent with the residual, the
   * accepted output has a residual below the tolerance or the loop stalled.
   */
  lemma SolveAndUpdateAccepts(e: Elementary, m: Transistor, x: real, phiX: real, g: real, l: Lane, fuel: nat)
    requires Consistent(Residual(e, m.y1, phiX, g), l)
    ensures var r := SolveAndUpdate(e, m, x, phiX, g, l, fuel);
      var F := Residual(e, m.y1, phiX, g);
      r.Solved? ==>
        Abs(F(r.out)) < Tolerance ||
        Abs(F(r.out) - F(Solve(F, l, fuel).value.u1)) < StallThreshold
  {
    SolveConsistent(Residual(e, m.y1, phiX, g), l, fuel);
  }

  /**
   * The slots `InitGuesses` fills for one model: the linearised guess, the
   * previous output moved away from it, and the residual at both.
   */
  function StartLane(e: Elementary, m: Transistor, x: real, g: real): (l: Lane)
    requires GuessDefined(g)
    ensures Consistent(Residual(e, m.y1, PhiX(e, m, x), g), l) && l.u0 != l.u1
  {
    var F := Residual(e, m.y1, PhiX(e, m, x), g);
    var guess := Guess(m.y1, PhiX(e, m, x), g);
    Lane(guess, Separate(guess, m.y1), F(guess), F(Separate(guess, m.y1)))
  }

  /**
   * A defined step (the guess is defined and the start slots' residuals
   * differ, which is when `Step` is not `Undefined`) runs the solve loop
   * from one secant step past the start slots.
   */
  lemma StepFromStart(e: Elementary, m: Transistor, x: real, g: real, fuel: nat)
    requires GuessDefined(g) && StartLane(e, m, x, g).f0 != StartLane(e, m, x, g).f1
    ensures var F := Residual(e, m.y1, PhiX(e, m, x), g);
      var start := StartLane(e, m, x, g);
      && start.f0 != start.f1
      && Step(e, m, x, g, fuel) == SolveAndUpdate(e, m, x, PhiX(e, m, x), g, SecantStep(F, start), fuel)
  {
    var phiX := PhiX(e, m, x);
    var init := InitGuesses(e, [phiX], [g], [m.y1]);
    var it := SecantIteration(e, [phiX], [g], [m.y1], init.0, init.1, init.2);
    assert LaneAt(init.0, init.1, 0) == StartLane(e, m, x, g);
  }

  /**
   * A solved step outputs, and stores as `_y1`, the first secant iterate
   * after the unguarded step, within the fuel, whose residual is below the
   * tolerance or moved by less than the stall threshold since the previous
   * iterate.
   */
  lemma StepAccepts(e: Elementary, m: Transistor, x: real, g: real, fuel: nat)
    ensures var r := Step(e, m, x, g, fuel);
      r.Solved? ==>
        var F := Residual(e, m.y1, PhiX(e, m, x), g);
        var start := StartLane(e, m, x, g);
        exists k: nat :: 1 <= k <= fuel + 1 && ExitsFirstAt(F, start, 1, k)
          && r.out == Iterate(F, start, k).u0 && r.next.y1 == r.out
  {
    var r := Step(e, m, x, g, fuel);
    if r.Solved? {
      var F := Residual(e, m.y1, PhiX(e, m, x), g);
      var start := StartLane(e, m, x, g);
      StepFromStart(e, m, x, g, fuel);
      var l := SecantStep(F, start);
      SolveStopsAtFirstExit(F, l, fuel);
      var k': nat :| k' <= fuel && ExitsFirstAt(F, l, 0, k') && Solve(F, l, fuel).value == Iterate(F, l, k');
      FirstExitShift(F, start, k' + 1);
      assert r == SolveAndUpdate(e, m, x, PhiX(e, m, x), g, l, fuel);
      assert 1 <= k' + 1 <= fuel + 1 && ExitsFirstAt(F, start, 1, k' + 1);
      assert r.out == Iterate(F, start, k' + 1).u0 && r.next.y1 == r.out;
    }
  }

  /**
   * Conversely, a defined step whose iterates first pass the exit test
   * within the fuel is solved, with that iterate as output and new `_y1`.
   */
  lemma StepSolvesAtFirstExit(e: Elementary, m: Transistor, x: real, g: real, fuel: nat, k: nat)
    requires GuessDefined(g) && StartLane(e, m, x, g).f0 != StartLane(e, m, x, g).f1
    requires 1 <= k <= fuel + 1 && ExitsFirstAt(Residual(e, m.y1, PhiX(e, m, x), g), StartLane(e, m, x, g), 1, k)
    ensures var root := Iterate(Residual(e, m.y1, PhiX(e, m, x), g), StartLane(e, m, x, g), k).u0;
      Step(e, m, x, g, fuel) == Solved(root, Transistor(root, x))
  {
    var F := Residual(e, m.y1, PhiX(e, m, x), g);
    var start := StartLane(e, m, x, g);
    StepFromStart(e, m, x, g, fuel);
    var l := SecantStep(F, start);
    FirstExitShift(F, start, k);
    SolveReturnsFirstExit(F, l, fuel, k - 1);
  }

  /**
   * At rest with zero input the model stays at rest for any non-negative
   * gain, whatever the fuel: the guess is the exact root 0 and the loop
   * accepts it after the one unguarded secant step.
   */
  lemma RestStaysAtRest(e: Elementary, g: real, fuel: nat)
    requires TanhZero(e) && LogCoshMinimalAtZero(e) && g >= 0.0
    ensures Step(e, Initial, 0.0, g, fuel) == Solved(0.0, Initial)
  {
    var phiX := PhiX(e, Initial, 0.0);
    ValueOnDiagonal(e, Double, 0.0);
    assert phiX == 0.0;
    var F := Residual(e, 0.0, phiX, g);
    var guess := Guess(0.0, phiX, g);
    assert guess == 0.0;
    var second := Separate(0.0, 0.0);
    assert second == GuessSeparation;
    assert F(0.0) == 0.0;
    ValueAwayFromZero(e, Double, second);
    var v := Value(e, Double, second, 0.0);
    assert F(second) == g * v + second;
    assert g * v >= 0.0;
    assert F(second) > 0.0;
    var init := InitGuesses(e, [phiX], [g], [0.0]);
    var l := LaneAt(init.0, init.1, 0);
    assert l == Lane(0.0, second, 0.0, F(second));
    var stepped := SecantStep(F, l);
    assert stepped == Lane(0.0, 0.0, 0.0, 0.0);
  }
}
