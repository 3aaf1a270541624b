/**
 * The one-pole OTA integrator dy/dt = w_c tanh(x - y), discretised with the
 * second-order discrete gradient of tanh and solved with the secant method
 * for the internal variable u = x - y:
 *   F(u) = g Grad2[tanh](u, u1) + u - u1 - x + x1 = 0,
 * where u1 and x1 are the previous internal value and input.
 */
module OtaIntegrator {
  import opened Scalars
  import opened DiscreteGradient
  import opened Secant

  /** `DefaultRolloff`, in hertz. */
  const DefaultRolloff: real := 10000.0

  /** The model's memory: previous internal value `_u1` and previous input `_x1`. */
  datatype Ota = Ota(u1: real, x1: real)

  /** The default constructor: both members start at zero. */
  const Initial: Ota := Ota(0.0, 0.0)

  /** `func`: the residual whose root is the new internal value. */
  function Residual(e: Elementary, u1: real, x: real, x1: real, g: real): real -> real
  {
    u => g * Value(e, Double, u, u1) + u - u1 - x + x1
  }

  /** The first guess divides by 1 + g/2. */
  predicate GuessDefined(g: real)
  {
    1.0 + 0.5 * g != 0.0
  }

  /**
   * The first guess, the root of the residual linearised around u ~ 0
   * (the discrete gradient replaced by the mid-point (u + u1)/2).
   */
  function Guess(u1: real, x: real, x1: real, g: real): (guess: real)
    requires GuessDefined(g)
    ensures g * (0.5 * (guess + u1)) + guess - u1 - x + x1 == 0.0
  {
    var d := 1.0 + 0.5 * g;
    var guess := (x - x1 + u1 * (1.0 - 0.5 * g)) / d;
    assert guess * d == x - x1 + u1 * (1.0 - 0.5 * g);
    guess
  }

  /** The residual of each model of a batch. */
  function Residuals(e: Elementary, xs: seq<real>, gs: seq<real>, u1s: seq<real>, x1s: seq<real>): (Fs: seq<real -> real>)
    requires |gs| == |xs| && |u1s| == |xs| && |x1s| == |xs|
    ensures |Fs| == |xs|
    ensures forall i :: 0 <= i < |xs| ==> Fs[i] == Residual(e, u1s[i], xs[i], x1s[i], gs[i])
  {
    seq(|xs|, i requires 0 <= i < |xs| => Residual(e, u1s[i], xs[i], x1s[i], gs[i]))
  }

  /**
   * `InitGuesses<N>`: for each model the linearised guess and its previous
   * internal value, separated by at least 1e-8, with the residual at both.
   * `ok` records which guesses were defined.
   */
  function InitGuesses(e: Elementary, xs: seq<real>, gs: seq<real>, u1s: seq<real>, x1s: seq<real>)
    : (r: (seq<real>, seq<real>, seq<bool>))
    requires |gs| == |xs| && |u1s| == |xs| && |x1s| == |xs|
    ensures |r.0| == 2 * |xs| && |r.1| == 2 * |xs| && |r.2| == |xs|
    ensures forall i :: 0 <= i < |xs| ==> r.2[i] == GuessDefined(gs[i])
    ensures forall i :: 0 <= i < |xs| ==>
      var l := LaneAt(r.0, r.1, i);
      && l.u0 != l.u1
      && Consistent(Residual(e, u1s[i], xs[i], x1s[i], gs[i]), l)
      && l.u1 == Separate(l.u0, u1s[i])
      && (GuessDefined(gs[i]) ==> l.u0 == Guess(u1s[i], xs[i], x1s[i], gs[i]))
  {
    var n := |xs|;
    var ok := seq(n, i requires 0 <= i < n => GuessDefined(gs[i]));
    var guesses := seq(n, i requires 0 <= i < n => if ok[i] then Guess(u1s[i], xs[i], x1s[i], gs[i]) else 0.0);
    var lanes := InitLanes(Residuals(e, xs, gs, u1s, x1s), guesses, u1s);
    (lanes.0, lanes.1, ok)
  }

  /** `SecantIteration<N>` on the batch's residuals. */
  function SecantIteration(e: Elementary, xs: seq<real>, gs: seq<real>, u1s: seq<real>, x1s: seq<real>,
                           u: seq<real>, f: seq<real>, ok: seq<bool>): (r: (seq<real>, seq<real>, seq<bool>))
    requires |gs| == |xs| && |u1s| == |xs| && |x1s| == |xs|
    requires |u| == 2 * |xs| && |f| == |u| && |ok| == |xs|
    ensures |r.0| == |u| && |r.1| == |u| && |r.2| == |xs|
    ensures forall i :: 0 <= i < |xs| ==> r.2[i] == (ok[i] && f[2 * i] != f[2 * i + 1])
    ensures forall i :: 0 <= i < |xs| && r.2[i] ==>
      LaneAt(r.0, r.1, i) == SecantStep(Residual(e, u1s[i], xs[i], x1s[i], gs[i]), LaneAt(u, f, i))
  {
    IterateLanes(Residuals(e, xs, gs, u1s, x1s), u, f, ok)
  }

  /**
   * `SolveSecantAndUpdateState`: run the solve loop from the given slots,
   * store the accepted root as `_u1` and the input as `_x1`, and return
   * the output x - u.
   */
  function SolveAndUpdate(e: Elementary, m: Ota, x: real, g: real, l: Lane, fuel: nat): (r: Outcome<Ota>)
    ensures !r.Undefined?
    ensures r.Solved? ==> r.next.x1 == x && r.out == x - r.next.u1
    ensures Exit(l) ==> r == Solved(x - l.u0, Ota(l.u0, x))
  {
    match Solve(Residual(e, m.u1, x, m.x1, g), l, fuel)
    case None => OutOfFuel
    case Some(a) => Solved(x - a.u0, Ota(a.u0, x))
  }

  /**
   * Model i's solve loop, run from its slots after the shared secant step;
   * undefined when its guess or that step divided by zero.
   */
  function SolveSlot(e: Elementary, m: Ota, x: real, g: real, it: (seq<real>, seq<real>, seq<bool>), i: nat, fuel: nat)
    : (r: Outcome<Ota>)
    requires 2 * i + 1 < |it.0| && |it.1| == |it.0| && i < |it.2|
    ensures r.Undefined? <==> !it.2[i]
  {
    if !it.2[i] then Undefined else SolveAndUpdate(e, m, x, g, LaneAt(it.0, it.1, i), fuel)
  }

  /**
   * `Step`: initial guesses, one unguarded secant step, then the solve loop.
   * The step is undefined exactly when the guess or that first secant step
   * divides by zero.
   */
  function Step(e: Elementary, m: Ota, x: real, g: real, fuel: nat): (r: Outcome<Ota>)
    ensures r.Undefined? <==>
      (!GuessDefined(g) ||
        var F := Residual(e, m.u1, x, m.x1, g);
        var guess := Guess(m.u1, x, m.x1, g);
        F(guess) == F(Separate(guess, m.u1)))
    ensures r.Solved? ==> r.next.x1 == x && r.out == x - r.next.u1
  {
    var init := InitGuesses(e, [x], [g], [m.u1], [m.x1]);
    var it := SecantIteration(e, [x], [g], [m.u1], [m.x1], init.0, init.1, init.2);
    SolveSlot(e, m, x, g, it, 0, fuel)
  }

  /**
   * `StepDual`: the two models (audio and CV paths of the VCA) share one
   * interleaved `InitGuesses<2>` and `SecantIteration<2>`, then each runs its
   * own solve loop.
   */
  function StepDual(e: Elementary, ms: seq<Ota>, xs: seq<real>, gs: seq<real>, fuel: nat): (r: seq<Outcome<Ota>>)
    requires |ms| == 2 && |xs| == 2 && |gs| == 2
    ensures |r| == 2
  {
    var u1s := [ms[0].u1, ms[1].u1];
    var x1s := [ms[0].x1, ms[1].x1];
    var init := InitGuesses(e, xs, gs, u1s, x1s);
    var it := SecantIteration(e, xs, gs, u1s, x1s, init.0, init.1, init.2);
    [SolveSlot(e, ms[0], xs[0], gs[0], it, 0, fuel), SolveSlot(e, ms[1], xs[1], gs[1], it, 1, fuel)]
  }

  // ---------------------------------------------------------------------
  // Properties
  // ---------------------------------------------------------------------

  /** Each model of `StepDual` gets exactly the outcome of its own `Step`. */
  lemma StepDualIsTwoSteps(e: Elementary, ms: seq<Ota>, xs: seq<real>, gs: seq<real>, fuel: nat)
    requires |ms| == 2 && |xs| == 2 && |gs| == 2
    ensures StepDual(e, ms, xs, gs, fuel) == [Step(e, ms[0], xs[0], gs[0], fuel), Step(e, ms[1], xs[1], gs[1], fuel)]
  {
    StepDualLane(e, ms, xs, gs, fuel, 0);
    StepDualLane(e, ms, xs, gs, fuel, 1);
  }

  /** Model j of `StepDual`: its slots and its defined flag are those `Step` computes alone. */
  lemma StepDualLane(e: Elementary, ms: seq<Ota>, xs: seq<real>, gs: seq<real>, fuel: nat, j: nat)
    requires |ms| == 2 && |xs| == 2 && |gs| == 2 && j < 2
    ensures StepDual(e, ms, xs, gs, fuel)[j] == Step(e, ms[j], xs[j], gs[j], fuel)
  {
    var u1s := [ms[0].u1, ms[1].u1];
    var x1s := [ms[0].x1, ms[1].x1];
    var init := InitGuesses(e, xs, gs, u1s, x1s);
    var it := SecantIteration(e, xs, gs, u1s, x1s, init.0, init.1, init.2);
    var m := ms[j];
    var one := InitGuesses(e, [xs[j]], [gs[j]], [m.u1], [m.x1]);
    var it1 := SecantIteration(e, [xs[j]], [gs[j]], [m.u1], [m.x1], one.0, one.1, one.2);
    assert LaneAt(one.0, one.1, 0) == LaneAt(init.0, init.1, j);
    assert it1.2[0] == it.2[j];
    if it.2[j] {
      assert LaneAt(it1.0, it1.1, 0) == LaneAt(it.0, it.1, j);
    }
  }

  /**
   * When the solve loop starts from slots consistent with the residual, the
   * accepted root has a residual below the tolerance or the loop stalled.
   */
  lemma SolveAndUpdateAccepts(e: Elementary, m: Ota, x: real, g: real, l: Lane, fuel: nat)
    requires Consistent(Residual(e, m.u1, x, m.x1, g), l)
    ensures var r := SolveAndUpdate(e, m, x, g, l, fuel);
      var F := Residual(e, m.u1, x, m.x1, g);
      r.Solved? ==>
        Abs(F(r.next.u1)) < Tolerance ||
        Abs(F(r.next.u1) - F(Solve(F, l, fuel).value.u1)) < StallThreshold
  {
    SolveConsistent(Residual(e, m.u1, x, m.x1, g), l, fuel);
  }

  /**
   * The slots `InitGuesses` fills for one model: the linearised guess, the
   * previous internal value moved away from it, and the residual at both.
   */
  function StartLane(e: Elementary, m: Ota, x: real, g: real): (l: Lane)
    requires GuessDefined(g)
    ensures Consistent(Residual(e, m.u1, x, m.x1, g), l) && l.u0 != l.u1
  {
    var F := Residual(e, m.u1, x, m.x1, g);
    var guess := Guess(m.u1, x, m.x1, g);
    Lane(guess, Separate(guess, m.u1), F(guess), F(Separate(guess, m.u1)))
  }

  /**
   * A defined step (the guess is defined and the start slots' residuals
   * differ, which is when `Step` is not `Undefined`) runs the solve loop
   * from one secant step past the start slots.
   */
  lemma StepFromStart(e: Elementary, m: Ota, x: real, g: real, fuel: nat)
    requires GuessDefined(g) && StartLane(e, m, x, g).f0 != StartLane(e, m, x, g).f1
    ensures var F := Residual(e, m.u1, x, m.x1, g);
      var start := StartLane(e, m, x, g);
      && start.f0 != start.f1
      && Step(e, m, x, g, fuel) == SolveAndUpdate(e, m, x, g, SecantStep(F, start), fuel)
  {
    var init := InitGuesses(e, [x], [g], [m.u1], [m.x1]);
    var it := SecantIteration(e, [x], [g], [m.u1], [m.x1], init.0, init.1, init.2);
    assert LaneAt(init.0, init.1, 0) == StartLane(e, m, x, g);
  }

  /**
   * A solved step stores as `_u1` the first secant iterate after the
   * unguarded step, within the fuel, whose residual is below the tolerance
   * or moved by less than the stall threshold since the previous iterate.
   */
  lemma StepAccepts(e: Elementary, m: Ota, x: real, g: real, fuel: nat)
    ensures var r := Step(e, m, x, g, fuel);
      r.Solved? ==>
        var F := Residual(e, m.u1, x, m.x1, g);
        var start := StartLane(e, m, x, g);
        exists k: nat :: 1 <= k <= fuel + 1 && ExitsFirstAt(F, start, 1, k) && r.next.u1 == Iterate(F, start, k).u0
  {
    var r := Step(e, m, x, g, fuel);
    if r.Solved? {
      var F := Residual(e, m.u1, x, m.x1, g);
      var start := StartLane(e, m, x, g);
      StepFromStart(e, m, x, g, fuel);
      var l := SecantStep(F, start);
      SolveStopsAtFirstExit(F, l, fuel);
      var k': nat :| k' <= fuel && ExitsFirstAt(F, l, 0, k') && Solve(F, l, fuel).value == Iterate(F, l, k');
      FirstExitShift(F, start, k' + 1);
      assert r == SolveAndUpdate(e, m, x, g, l, fuel);
      assert 1 <= k' + 1 <= fuel + 1 && ExitsFirstAt(F, start, 1, k' + 1);
      assert r.next.u1 == Iterate(F, start, k' + 1).u0;
    }
  }

  /**
   * Conversely, a defined step whose iterates first pass the exit test
   * within the fuel is solved, with that iterate as the new `_u1`.
   */
  lemma StepSolvesAtFirstExit(e: Elementary, m: Ota, x: real, g: real, fuel: nat, k: nat)
    requires GuessDefined(g) && StartLane(e, m, x, g).f0 != StartLane(e, m, x, g).f1
    requires 1 <= k <= fuel + 1 && ExitsFirstAt(Residual(e, m.u1, x, m.x1, g), StartLane(e, m, x, g), 1, k)
    ensures var root := Iterate(Residual(e, m.u1, x, m.x1, g), StartLane(e, m, x, g), k).u0;
      Step(e, m, x, g, fuel) == Solved(x - root, Ota(root, x))
  {
    var F := Residual(e, m.u1, x, m.x1, g);
    var start := StartLane(e, m, x, g);
    StepFromStart(e, m, x, g, fuel);
    var l := SecantStep(F, start);
    FirstExitShift(F, start, k);
    SolveReturnsFirstExit(F, l, fuel, k - 1);
  }

  /**
   * A constant input c with the model settled on it (u1 = 0, x1 = c) passes
   * through unchanged for any non-negative gain, whatever the fuel: the
   * guess is the exact root 0 and the loop accepts it at once.
   */
  lemma SettledPassesInput(e: Elementary, c: real, g: real, fuel: nat)
    requires TanhZero(e) && LogCoshMinimalAtZero(e) && g >= 0.0
    ensures Step(e, Ota(0.0, c), c, g, fuel) == Solved(c, Ota(0.0, c))
  {
    var F := Residual(e, 0.0, c, c, g);
    var guess := Guess(0.0, c, c, g);
    assert guess == 0.0;
    var second := Separate(0.0, 0.0);
    assert second == GuessSeparation;
    ValueOnDiagonal(e, Double, 0.0);
    assert F(0.0) == 0.0;
    ValueAwayFromZero(e, Double, second);
    var v := Value(e, Double, second, 0.0);
    assert F(second) == g * v + second;
    assert g * v >= 0.0;
    assert F(second) > 0.0;
    var m := Ota(0.0, c);
    var start := StartLane(e, m, c, g);
    assert start == Lane(0.0, second, 0.0, F(second));
    assert !Step(e, m, c, g, fuel).Undefined?;
    StepFromStart(e, m, c, g, fuel);
    SecantStepAtRoot(F, start);
    var stepped := SecantStep(F, start);
    assert SolveAndUpdate(e, m, c, g, stepped, fuel) == Solved(c - 0.0, Ota(0.0, c));
  }
}
