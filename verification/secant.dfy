/**
 * The secant solver shared by the two nonlinear one-pole integrators.
 *
 * The C++ keeps, for N independent models, two interleaved arrays of
 * length 2N: u(2i) is the current guess of model i and u(2i+1) the previous
 * one, f holds the residual at each. `InitGuesses<N>` fills them,
 * `SecantIteration<N>` advances every model by one secant step, and the
 * per-model solve loop repeats single steps until the residual is small or
 * the last step no longer changed it.
 *
 * The residual of model i is passed in as a function. A secant step whose
 * two residuals are equal divides by zero; the C++ guess becomes infinite
 * or NaN, its residual NaN, and the solve loop never exits. The model
 * records this by clearing the lane's `ok` flag. The solve loop has no iteration cap in the C++, so it takes
 * fuel here.
 */
module Secant {
  import opened Scalars

  /** Loop exit: the residual is below this in magnitude (about 120 dB). */
  const Tolerance: real := 0.000001

  /** Loop exit: the last step changed the residual by less than this. */
  const StallThreshold: real := 0.000000000001

  /** Minimum separation between the two initial guesses. */
  const GuessSeparation: real := 0.00000001

  /**
   * The result of one integrator step: the output and next state, or a
   * step that divided by zero (its residual is NaN and the C++ loop never
   * exits), or a solve loop that did not exit within the fuel.
   */
  datatype Outcome<S> = Solved(out: real, next: S) | Undefined | OutOfFuel

  /** One model's slots: current and previous guess, and the residual at each. */
  datatype Lane = Lane(u0: real, u1: real, f0: real, f1: real)

  /** The residual slots hold the residual at the guess slots. */
  predicate Consistent(F: real -> real, l: Lane)
  {
    l.f0 == F(l.u0) && l.f1 == F(l.u1)
  }

  /**
   * The second guess, moved up by the separation when it is closer than
   * that to the first.
   */
  function Separate(guess: real, second: real): (r: real)
    ensures r != guess
    ensures Abs(second - guess) >= GuessSeparation ==> r == second
    ensures Abs(second - guess) < GuessSeparation ==> r == second + GuessSeparation
  {
    if Abs(second - guess) < GuessSeparation then second + GuessSeparation else second
  }

  /**
   * One secant step: the new guess is the root of the chord through the two
   * points, the old current guess becomes the previous one, and the residual
   * is evaluated at the new guess.
   */
  function SecantStep(F: real -> real, l: Lane): (r: Lane)
    requires l.f0 != l.f1
    ensures r.u1 == l.u0 && r.f1 == l.f0 && r.f0 == F(r.u0)
  {
    var next := l.u0 - l.f0 * (l.u0 - l.u1) / (l.f0 - l.f1);
    Lane(next, l.u0, F(next), l.f0)
  }

  /** The exit test of the solve loop. */
  predicate Exit(l: Lane)
  {
    Abs(l.f0) < Tolerance || Abs(l.f0 - l.f1) < StallThreshold
  }

  /**
   * The solve loop with at most `fuel` steps: None when the fuel runs out
   * before the exit test passes. A lane that fails the exit test has
   * distinct residuals, so every step it takes is defined.
   */
  function Solve(F: real -> real, l: Lane, fuel: nat): (r: Option<Lane>)
    ensures r.Some? ==> Exit(r.value)
    ensures Exit(l) ==> r == Some(l)
    decreases fuel
  {
    if Exit(l) then Some(l)
    else if fuel == 0 then None
    else Solve(F, SecantStep(F, l), fuel - 1)
  }

  // ---------------------------------------------------------------------
  // Interleaved arrays of N models
  // ---------------------------------------------------------------------

  /** The slots of model i in the interleaved arrays. */
  function LaneAt(u: seq<real>, f: seq<real>, i: nat): Lane
    requires 2 * i + 1 < |u| && |f| == |u|
  {
    Lane(u[2 * i], u[2 * i + 1], f[2 * i], f[2 * i + 1])
  }

  /** Lay out per-model slots in the interleaved arrays. */
  function Interleave(lanes: seq<Lane>): (r: (seq<real>, seq<real>))
    ensures |r.0| == 2 * |lanes| && |r.1| == 2 * |lanes|
    ensures forall i :: 0 <= i < |lanes| ==> LaneAt(r.0, r.1, i) == lanes[i]
  {
    var n := 2 * |lanes|;
    var u := seq(n, k requires 0 <= k < n => if k % 2 == 0 then lanes[k / 2].u0 else lanes[k / 2].u1);
    var f := seq(n, k requires 0 <= k < n => if k % 2 == 0 then lanes[k / 2].f0 else lanes[k / 2].f1);
    InterleaveSlots(lanes, u, f);
    (u, f)
  }

  lemma InterleaveSlots(lanes: seq<Lane>, u: seq<real>, f: seq<real>)
    requires |u| == 2 * |lanes| && |f| == |u|
    requires forall k :: 0 <= k < |u| ==> u[k] == if k % 2 == 0 then lanes[k / 2].u0 else lanes[k / 2].u1
    requires forall k :: 0 <= k < |u| ==> f[k] == if k % 2 == 0 then lanes[k / 2].f0 else lanes[k / 2].f1
    ensures forall i :: 0 <= i < |lanes| ==> LaneAt(u, f, i) == lanes[i]
  {
    forall i | 0 <= i < |lanes| ensures LaneAt(u, f, i) == lanes[i] {
      assert (2 * i) / 2 == i && (2 * i + 1) / 2 == i;
      assert (2 * i) % 2 == 0 && (2 * i + 1) % 2 == 1;
    }
  }

  /**
   * `InitGuesses<N>`: slot 2i gets the first guess of model i, slot 2i+1 its
   * second guess separated from the first, and each residual slot the
   * residual of its model at its guess.
   */
  function InitLanes(Fs: seq<real -> real>, guesses: seq<real>, seconds: seq<real>): (r: (seq<real>, seq<real>))
    requires |guesses| == |Fs| && |seconds| == |Fs|
    ensures |r.0| == 2 * |Fs| && |r.1| == 2 * |Fs|
    ensures forall i :: 0 <= i < |Fs| ==>
      LaneAt(r.0, r.1, i) == Lane(guesses[i], Separate(guesses[i], seconds[i]),
        Fs[i](guesses[i]), Fs[i](Separate(guesses[i], seconds[i])))
  {
    var n := |Fs|;
    Interleave(seq(n, i requires 0 <= i < n =>
      var second := Separate(guesses[i], seconds[i]);
      Lane(guesses[i], second, Fs[i](guesses[i]), Fs[i](second))))
  }

  /**
   * `SecantIteration<N>`: every lane that is still defined and has distinct
   * residuals takes one secant step; a lane with equal residuals is flagged
   * undefined; flagged lanes are left as they are.
   */
  function IterateLanes(Fs: seq<real -> real>, u: seq<real>, f: seq<real>, ok: seq<bool>)
    : (r: (seq<real>, seq<real>, seq<bool>))
    requires |u| == 2 * |Fs| && |f| == |u| && |ok| == |Fs|
    ensures |r.0| == |u| && |r.1| == |u| && |r.2| == |Fs|
    ensures forall i :: 0 <= i < |Fs| ==> r.2[i] == (ok[i] && f[2 * i] != f[2 * i + 1])
    ensures forall i :: 0 <= i < |Fs| && r.2[i] ==> LaneAt(r.0, r.1, i) == SecantStep(Fs[i], LaneAt(u, f, i))
    ensures forall i :: 0 <= i < |Fs| && !r.2[i] ==> LaneAt(r.0, r.1, i) == LaneAt(u, f, i)
  {
    var n := |Fs|;
    var ok' := seq(n, i requires 0 <= i < n => ok[i] && f[2 * i] != f[2 * i + 1]);
    var stepped := Interleave(seq(n, i requires 0 <= i < n =>
      if ok'[i] then SecantStep(Fs[i], LaneAt(u, f, i)) else LaneAt(u, f, i)));
    (stepped.0, stepped.1, ok')
  }

  // ---------------------------------------------------------------------
  // Properties
  // ---------------------------------------------------------------------

  /**
   * The new guess is the root of the chord through (u1, f1) and (u0, f0):
   * the chord's slope times the move equals minus the current residual.
   */
  lemma SecantChord(F: real -> real, l: Lane)
    requires l.f0 != l.f1
    ensures var r := SecantStep(F, l);
      (l.f0 - l.f1) * (r.u0 - l.u0) == -l.f0 * (l.u0 - l.u1)
  {
    var d := l.f0 - l.f1;
    var q := l.f0 * (l.u0 - l.u1) / d;
    assert d * q == l.f0 * (l.u0 - l.u1);
  }

  /** A secant step keeps the residual slots consistent with the guesses. */
  lemma StepConsistent(F: real -> real, l: Lane)
    requires l.f0 != l.f1 && Consistent(F, l)
    ensures Consistent(F, SecantStep(F, l))
  {
  }

  /**
   * The solve loop keeps the slots consistent, so on exit the accepted guess
   * has a residual below the tolerance or the last step stalled.
   */
  lemma {:induction false} SolveConsistent(F: real -> real, l: Lane, fuel: nat)
    requires Consistent(F, l)
    ensures Solve(F, l, fuel).Some? ==> Consistent(F, Solve(F, l, fuel).value)
    ensures Solve(F, l, fuel).Some? ==>
      var a := Solve(F, l, fuel).value;
      Abs(F(a.u0)) < Tolerance || Abs(F(a.u0) - F(a.u1)) < StallThreshold
    decreases fuel
  {
    if !Exit(l) && fuel > 0 {
      StepConsistent(F, l);
      SolveConsistent(F, SecantStep(F, l), fuel - 1);
    }
  }

  /** More fuel never changes a result the loop already reached. */
  lemma {:induction false} SolveFuelMonotone(F: real -> real, l: Lane, fuel: nat, more: nat)
    requires fuel <= more && Solve(F, l, fuel).Some?
    ensures Solve(F, l, more) == Solve(F, l, fuel)
    decreases fuel
  {
    if !Exit(l) {
      SolveFuelMonotone(F, SecantStep(F, l), fuel - 1, more - 1);
    }
  }

  /** A step from a root in the current slot stays at it, and both slots then hold the root. */
  lemma SecantStepAtRoot(F: real -> real, l: Lane)
    requires l.f0 == 0.0 && l.f1 != 0.0 && F(l.u0) == 0.0
    ensures SecantStep(F, l) == Lane(l.u0, l.u0, 0.0, 0.0)
  {
    assert l.f0 * (l.u0 - l.u1) / (l.f0 - l.f1) == 0.0;
  }

  /** A root already in the current slot is accepted without any step. */
  lemma SolveAtRoot(F: real -> real, l: Lane, fuel: nat)
    requires l.f0 == 0.0
    ensures Solve(F, l, fuel) == Some(l)
  {
  }

  // ---------------------------------------------------------------------
  // The solve loop as the first exit along the secant iterates
  // ---------------------------------------------------------------------

  /**
   * The k-th secant iterate of a lane; iteration stops at a lane whose two
   * residuals are equal (such a lane passes the exit test anyway).
   */
  function Iterate(F: real -> real, l: Lane, k: nat): (r: Lane)
    ensures Consistent(F, l) ==> Consistent(F, r)
    decreases k
  {
    if k == 0 || l.f0 == l.f1 then l else Iterate(F, SecantStep(F, l), k - 1)
  }

  /** Iterate k is the first one from index `from` on that passes the exit test. */
  predicate ExitsFirstAt(F: real -> real, l: Lane, from: nat, k: nat)
  {
    from <= k && Exit(Iterate(F, l, k)) && forall j :: from <= j < k ==> !Exit(Iterate(F, l, j))
  }

  /** One step taken, the iterates are those of the stepped lane, one index on. */
  lemma IterateShift(F: real -> real, l: Lane, k: nat)
    requires l.f0 != l.f1
    ensures Iterate(F, l, k + 1) == Iterate(F, SecantStep(F, l), k)
  {
  }

  /** First exits counted from index 1 of a lane are first exits from index 0 of its secant step. */
  lemma FirstExitShift(F: real -> real, l: Lane, k: nat)
    requires l.f0 != l.f1
    ensures k >= 1 && ExitsFirstAt(F, l, 1, k) <==> k >= 1 && ExitsFirstAt(F, SecantStep(F, l), 0, k - 1)
    ensures k >= 1 ==> Iterate(F, SecantStep(F, l), k - 1) == Iterate(F, l, k)
  {
    if k >= 1 {
      IterateShift(F, l, k - 1);
      forall j | 0 <= j < k - 1 ensures Iterate(F, SecantStep(F, l), j) == Iterate(F, l, j + 1) {
        IterateShift(F, l, j);
      }
      if ExitsFirstAt(F, SecantStep(F, l), 0, k - 1) {
        forall j | 1 <= j < k ensures !Exit(Iterate(F, l, j)) {
          assert Iterate(F, SecantStep(F, l), j - 1) == Iterate(F, l, j);
        }
      }
    }
  }

  /** A solved loop stopped at the first iterate, within the fuel, that passes the exit test. */
  lemma {:induction false} SolveStopsAtFirstExit(F: real -> real, l: Lane, fuel: nat)
    requires Solve(F, l, fuel).Some?
    ensures exists k: nat :: k <= fuel && ExitsFirstAt(F, l, 0, k) && Solve(F, l, fuel).value == Iterate(F, l, k)
    decreases fuel
  {
    if Exit(l) {
      assert ExitsFirstAt(F, l, 0, 0);
    } else {
      var s := SecantStep(F, l);
      SolveStopsAtFirstExit(F, s, fuel - 1);
      var k': nat :| k' <= fuel - 1 && ExitsFirstAt(F, s, 0, k') && Solve(F, s, fuel - 1).value == Iterate(F, s, k');
      IterateShift(F, l, k');
      forall j | 0 < j < k' + 1 ensures !Exit(Iterate(F, l, j)) {
        IterateShift(F, l, j - 1);
      }
      assert ExitsFirstAt(F, l, 0, k' + 1);
    }
  }

  /** Whenever iterate k is the first to pass the exit test and k is within the fuel, the loop returns it. */
  lemma {:induction false} SolveReturnsFirstExit(F: real -> real, l: Lane, fuel: nat, k: nat)
    requires k <= fuel && ExitsFirstAt(F, l, 0, k)
    ensures Solve(F, l, fuel) == Some(Iterate(F, l, k))
    decreases fuel
  {
    if k > 0 {
      assert !Exit(Iterate(F, l, 0));
      var s := SecantStep(F, l);
      IterateShift(F, l, k - 1);
      forall j | 0 <= j < k - 1 ensures !Exit(Iterate(F, s, j)) {
        IterateShift(F, l, j);
      }
      SolveReturnsFirstExit(F, s, fuel - 1, k - 1);
    }
  }

  /** When no iterate up to the fuel passes the exit test, the loop runs out of fuel. */
  lemma {:induction false} SolveOutOfFuel(F: real -> real, l: Lane, fuel: nat)
    requires forall j :: 0 <= j <= fuel ==> !Exit(Iterate(F, l, j))
    ensures Solve(F, l, fuel).None?
    decreases fuel
  {
    assert !Exit(Iterate(F, l, 0));
    if fuel > 0 {
      var s := SecantStep(F, l);
      forall j | 0 <= j <= fuel - 1 ensures !Exit(Iterate(F, s, j)) {
        IterateShift(F, l, j);
      }
      SolveOutOfFuel(F, s, fuel - 1);
    }
  }
}
