# TriggerFish analog-circuit engine, modelled in Dafny

TriggerFish emulates analog synthesiser circuits sample by sample. This
project models the numerical engine behind its modules over `real`:

- **Oversampling.** The polyphase IIR half-band resamplers (identity, ×2, ×4) are made of first-order all-pass sections. Both factory sets build them.
- **Discrete-gradient tanh.** This is the anti-aliased tanh kernel: a scalar form, a block form, and a lag-shifting block processor.
- **Nonlinear one-pole integrators.** The OTA and transistor variants are solved by an interleaved secant method. `StepDual` steps two of them at once.
- **The VCA core.** An audio path and a CV path are each a nonlinear integrator. Their product passes through a memory-1 tanh output stage saturating at the 12 V supply.
- **The BDF integrator.** A backward-differentiation linear multistep ODE solver of orders 1 to 6, with bootstrapping through the lower orders and a capped Newton loop.
- **The Van der Pol oscillator.** This is the forced Van der Pol vector field with its Jacobian, integrated by BDF at the oversampled rate. The parameters and the state are clamped on every tick.
- **Small filters.** These are the one-sample delay, the first-order all-pass, the TDF2 biquad, the zero-delay-feedback low-pass and high-pass, and the OTA-style nonlinear low-pass. The module also has the pinking filter of the pink-noise source and the linear detune of a v/oct pitch.

The transcendental functions (`tanh`, `log(cosh)`, `tan`, `exp`, `log`,
`sqrt`) are uninterpreted fields of `Scalars.Elementary`. A property that
needs a fact about one of them states that fact as a requirement:

- `TanhZero`;
- `LogCoshMinimalAtZero`;
- `TanhBounded`;
- `ExpLogInverse`;
- `SqrtOfFive`.

The model of the vector field and the Jacobian, and the QR linear solve
with its norm, are parameters (`Bdf.Ode`, `Bdf.LinearSolver`).

Loops become functions:

- The secant solve loop has no iteration cap in C++, so it takes a `fuel` parameter. Its outcome is `Secant.Outcome`:
  - `Solved` with the output and the next state;
  - `Undefined`, when the C++ divides by zero in the first guess or in the unguarded first secant step. Its residual is then NaN, so neither exit test of its solve loop ever holds and the loop never exits;
  - `OutOfFuel`.
- A C++ exception for an unset sample rate is an explicit result: `None` or `NotInitialised`.

Modules:

| file | module | C++ |
|---|---|---|
| scalars.dfy | Scalars | precision, `<cmath>` functions, `std::min`/`std::max`, clamps |
| vectors.dfy | Vectors | Eigen vector and matrix arithmetic used by BDF |
| discrete_gradient.dfy | DiscreteGradient | src/dsp/nonlinear.hpp |
| secant.dfy | Secant | the shared secant machinery of both integrators |
| ota_integrator.dfy | OtaIntegrator | src/models/OTA1PoleIntegrator.hpp |
| transistor_integrator.dfy | TransistorIntegrator | src/models/Transistor1PoleIntegrator.hpp |
| resampling.dfy | Resampling | src/dsp/sampleRate.hpp |
| resampler_factories.dfy | ResamplerFactories, TfdspResamplerFactories | src/dsp/sampleRate.cpp, src/tfdsp/sampleRate.cpp |
| vca_core.dfy | VcaCore | src/models/VCAcore.hpp |
| bdf.dfy | Bdf | src/models/ode.hpp |
| van_der_pol.dfy | VanDerPol | src/models/VanDerPoleODE.hpp |
| vdp_oscillator.dfy | VdpOscillator | src/models/VdpOscillator.hpp |
| filters.dfy | Filters | src/tfdsp/filters.hpp |
| noise.dfy | Noise | src/tfdsp/noise.hpp |

## Model

| member | source | states |
|---|---|---|
| Scalars.ClampSymmetric | src/models/VdpOscillator.hpp:49-51 | the clamp max(min(v, b), -b) lies in [-b, b] and leaves values already inside unchanged |
| DiscreteGradient.ValueLarge | src/dsp/nonlinear.hpp:35-38 | the large-step value times the step x - xPrev is the change of log cosh between the two points |
| DiscreteGradient.ValueBranches | src/dsp/nonlinear.hpp:41-46 | Value is tanh of the mid-point when \|x - xPrev\| <= eps; otherwise x != xPrev and Value times the step is the change of log cosh |
| DiscreteGradient.ValueSymmetric | src/dsp/nonlinear.hpp:41-46 | Value(x, xPrev) == Value(xPrev, x) in both branches |
| DiscreteGradient.ValueOnDiagonal | src/dsp/nonlinear.hpp:43-44 | on the diagonal the discrete gradient is tanh itself |
| DiscreteGradient.ValueAwayFromZero | src/dsp/nonlinear.hpp:35-46 | a positive step h > eps from 0 has a non-negative discrete gradient, because log cosh is smallest at 0 |
| DiscreteGradient.DerivativeBranches | src/dsp/nonlinear.hpp:55-63 | near the diagonal Derivative is 0.5 (1 - t^2) with t the mid-point tanh; elsewhere Derivative times the step is tanh(x) - Value |
| DiscreteGradient.DerivativeNearBounded | src/dsp/nonlinear.hpp:57-61 | with \|tanh\| <= 1, the near-branch derivative lies in [0, 1/2] |
| DiscreteGradient.BlockValue | src/dsp/nonlinear.hpp:47-54 | the block Value agrees element by element with the scalar Value |
| DiscreteGradient.NewTanhBlock | src/dsp/nonlinear.hpp:72-75 | the lag vector starts at zero, one slot per block sample |
| DiscreteGradient.Process | src/dsp/nonlinear.hpp:76-84 | the output is the stream of discrete gradients of each sample against its predecessor, the first against the previous block's last sample; the lag keeps x(n-1) in slot 0 and x(i-1) in slot i |
| DiscreteGradient.ProcessTwoBlocks | src/dsp/nonlinear.hpp:76-84 | two consecutive blocks give exactly the stream of the concatenated input |
| Secant.Separate | src/models/OTA1PoleIntegrator.hpp:69-73 | the second guess is moved up by 1e-8 exactly when it lies closer than 1e-8 to the first, so the two guesses always differ |
| Secant.SecantStep | src/models/OTA1PoleIntegrator.hpp:99-106 | the old current guess and residual move to the previous slots, and the new residual is F at the new guess |
| Secant.SecantChord | src/models/OTA1PoleIntegrator.hpp:102 | the new guess is the root of the chord through the two points: (f0 - f1)(u0' - u0) == -f0 (u0 - u1) |
| Secant.StepConsistent | src/models/OTA1PoleIntegrator.hpp:99-106 | a secant step keeps each residual slot equal to F at its guess slot |
| Secant.Solve | src/models/OTA1PoleIntegrator.hpp:118-126 | the loop returns only lanes passing the exit test \|f0\| < 1e-6 or \|f0 - f1\| < 1e-12, and a lane that already passes is returned unchanged |
| Secant.SolveConsistent | src/models/OTA1PoleIntegrator.hpp:118-126 | from consistent slots, the accepted guess has \|F\| < 1e-6 or the last step changed F by less than 1e-12 |
| Secant.SolveFuelMonotone | src/models/OTA1PoleIntegrator.hpp:118-126 | more fuel never changes a result the loop already reached |
| Secant.SecantStepAtRoot | src/models/OTA1PoleIntegrator.hpp:99-106 | a secant step from an exact root in the current slot moves nothing but the slots: both then hold the root with zero residual |
| Secant.SolveAtRoot | src/models/OTA1PoleIntegrator.hpp:122-123 | an exact root in the current slot is accepted without any step |
| Secant.Iterate | src/models/OTA1PoleIntegrator.hpp:118-126 | iterates of consistent slots stay consistent |
| Secant.IterateShift | src/models/OTA1PoleIntegrator.hpp:118-126 | after one secant step the iterates are those of the stepped lane, one index on |
| Secant.FirstExitShift | src/models/OTA1PoleIntegrator.hpp:118-126 | the first exit from index 1 of a lane is the first exit from index 0 of its secant step, one index on |
| Secant.SolveStopsAtFirstExit | src/models/OTA1PoleIntegrator.hpp:118-126 | a solved loop returns the first iterate within the fuel that passes the exit test |
| Secant.SolveReturnsFirstExit | src/models/OTA1PoleIntegrator.hpp:118-126 | whenever iterate k <= fuel is the first to pass the exit test, the loop returns it |
| Secant.SolveOutOfFuel | src/models/OTA1PoleIntegrator.hpp:118-126 | when no iterate up to the fuel passes the exit test, the loop runs out of fuel |
| Secant.Interleave | src/models/OTA1PoleIntegrator.hpp:65-67 | model i occupies slots 2i (current) and 2i+1 (previous) of the interleaved arrays |
| Secant.InitLanes | src/models/OTA1PoleIntegrator.hpp:61-77 | slot 2i holds model i's guess, slot 2i+1 its separated second guess, and each residual slot holds its model's residual at its guess |
| Secant.IterateLanes | src/models/OTA1PoleIntegrator.hpp:99-106 | every defined lane with distinct residuals takes exactly its own secant step; a lane with equal residuals is flagged undefined and left alone |
| OtaIntegrator.Guess | src/models/OTA1PoleIntegrator.hpp:63-64 | the first guess is the exact root of the residual with the discrete gradient linearised to the mid-point |
| OtaIntegrator.InitGuesses | src/models/OTA1PoleIntegrator.hpp:52-78 | per model the two guesses are distinct, the second is the separated previous internal value, the residual slots are consistent, and the guess is defined exactly when 1 + g/2 != 0 |
| OtaIntegrator.SecantIteration | src/models/OTA1PoleIntegrator.hpp:90-107 | each model takes one secant step on its own residual when its two residuals differ |
| OtaIntegrator.SolveAndUpdate | src/models/OTA1PoleIntegrator.hpp:109-131 | never undefined; on success `_x1` is x, `_u1` is the accepted root and the output is x - u; an already-accepted lane is stored directly |
| OtaIntegrator.SolveAndUpdateAccepts | src/models/OTA1PoleIntegrator.hpp:118-130 | the stored root has a residual below 1e-6 or the loop stalled |
| OtaIntegrator.Step | src/models/OTA1PoleIntegrator.hpp:141-165 | undefined exactly when 1 + g/2 == 0 or the unguarded first secant step meets equal residuals; on success x1 := x and the output is x - u1 |
| OtaIntegrator.StartLane | src/models/OTA1PoleIntegrator.hpp:61-77 | the start slots hold two distinct guesses and the residual at each |
| OtaIntegrator.StepFromStart | src/models/OTA1PoleIntegrator.hpp:141-165 | when the guess is defined and the start slots' residuals differ (exactly when `Step` is defined), the step runs the solve loop from one secant step past the start slots |
| OtaIntegrator.StepAccepts | src/models/OTA1PoleIntegrator.hpp:118-130 | a solved step stores as `_u1` the first secant iterate after the unguarded step, within the fuel, with \|F\| < 1e-6 or \|F - F(previous iterate)\| < 1e-12 |
| OtaIntegrator.StepSolvesAtFirstExit | src/models/OTA1PoleIntegrator.hpp:118-130 | conversely, when the step is defined and its iterates first pass the exit test within the fuel, it is solved with that iterate |
| OtaIntegrator.StepDualIsTwoSteps | src/models/OTA1PoleIntegrator.hpp:174-203 | `StepDual` gives each model exactly the outcome of its own `Step` |
| OtaIntegrator.SettledPassesInput | src/models/OTA1PoleIntegrator.hpp:141-165 | a model settled on a constant input (u1 = 0, x1 = c) passes c through unchanged for any g >= 0 and any fuel |
| TransistorIntegrator.Guess | src/models/Transistor1PoleIntegrator.hpp:63-64 | the first guess is the exact root of the residual with the discrete gradient linearised to the mid-point |
| TransistorIntegrator.InitGuesses | src/models/Transistor1PoleIntegrator.hpp:53-78 | per model the guesses are distinct, the second is the separated previous output, the residual slots are consistent, and the guess is defined exactly when 1 + g/2 != 0 |
| TransistorIntegrator.SecantIteration | src/models/Transistor1PoleIntegrator.hpp:89-105 | each model takes one secant step on its own residual when its two residuals differ |
| TransistorIntegrator.SolveAndUpdate | src/models/Transistor1PoleIntegrator.hpp:107-128 | never undefined; on success the next state is (accepted root, x) and the output is the root |
| TransistorIntegrator.SolveAndUpdateAccepts | src/models/Transistor1PoleIntegrator.hpp:115-127 | the stored root has a residual below 1e-6 or the loop stalled |
| TransistorIntegrator.Step | src/models/Transistor1PoleIntegrator.hpp:139-163 | phiX is computed once from (x, x1); undefined exactly when 1 + g/2 == 0 or the first secant step meets equal residuals; on success y1 := output and x1 := x |
| TransistorIntegrator.StartLane | src/models/Transistor1PoleIntegrator.hpp:61-77 | the start slots hold two distinct guesses and the residual at each |
| TransistorIntegrator.StepFromStart | src/models/Transistor1PoleIntegrator.hpp:139-163 | when the guess is defined and the start slots' residuals differ (exactly when `Step` is defined), the step runs the solve loop from one secant step past the start slots |
| TransistorIntegrator.StepAccepts | src/models/Transistor1PoleIntegrator.hpp:115-127 | a solved step outputs, and stores as `_y1`, the first secant iterate after the unguarded step, within the fuel, with \|F\| < 1e-6 or \|F - F(previous iterate)\| < 1e-12 |
| TransistorIntegrator.StepSolvesAtFirstExit | src/models/Transistor1PoleIntegrator.hpp:115-127 | conversely, when the step is defined and its iterates first pass the exit test within the fuel, it is solved with that iterate |
| TransistorIntegrator.StepDualIsTwoSteps | src/models/Transistor1PoleIntegrator.hpp:172-204 | `StepDual` gives each model exactly the outcome of its own `Step` |
| TransistorIntegrator.RestStaysAtRest | src/models/Transistor1PoleIntegrator.hpp:139-163 | from rest with zero input the model outputs 0 and stays at rest for any g >= 0 and any fuel |
| Resampling.Cascade | src/dsp/sampleRate.hpp:86-91 | a cascade keeps one state per section |
| Resampling.NewHalfBand | src/dsp/sampleRate.hpp:56-63 | a new stage keeps its coefficients, has states sized N and M, and rests at zero |
| Resampling.HalfBandUpsample | src/dsp/sampleRate.hpp:80-104 | output 0 is the direct cascade and output 1 the delayed cascade of x; only the upsampling states change |
| Resampling.HalfBandDownsample | src/dsp/sampleRate.hpp:105-129 | the output is half the direct cascade of sample 0 plus half the previous delayed output; the current delayed output is kept; only the downsampling states and the delay change |
| Resampling.Upsample | src/dsp/sampleRate.hpp:21-25 | one sample gives `ResamplingFactor` samples (1, 2 or 4) and the kind is kept |
| Resampling.Downsample | src/dsp/sampleRate.hpp:26-29 | `ResamplingFactor` samples give one, and the kind is kept |
| Resampling.SectionDc | src/dsp/sampleRate.hpp:88-89 | a section with state c (1 - a) passes c through and keeps its state |
| Resampling.SectionLossless | src/dsp/sampleRate.hpp:88-89 | each section is all-pass: (1 - a^2) y^2 + s'^2 == (1 - a^2) v^2 + s^2 |
| Resampling.CascadeDc | src/dsp/sampleRate.hpp:86-91 | a cascade at the DC state of c maps c to c and keeps every state |
| Resampling.CascadeLossless | src/dsp/sampleRate.hpp:86-91 | with \|a\| < 1, output energy plus stored energy after a step equals input energy plus stored energy before it |
| Resampling.HalfBandDc | src/dsp/sampleRate.hpp:80-129 | at the DC state of c, up(c) == [c, c] and down([c, c]) == c, with no state moving |
| Resampling.DummyRoundTrip | src/dsp/sampleRate.hpp:32-48 | the identity resampler has factor 1 and Downsample(Upsample(x)) == x |
| Resampling.DcFixedPoint | src/dsp/sampleRate.hpp:80-168 | every resampler at the DC state of c has unity DC gain and an exact fixed point |
| Resampling.ZeroInZeroOut | src/dsp/sampleRate.hpp:80-129 | zero state with zero input gives zero outputs and the state stays zero |
| ResamplerFactories.SqrtFiveBounds | src/dsp/sampleRate.cpp:9-10 | 2 < sqrt 5 < 2.5, which puts both Butterworth coefficients in (0, 1) |
| ResamplerFactories.Butterworth5 | src/dsp/sampleRate.cpp:6-12 | one direct section 1/(5 + 2 sqrt 5) and one delayed section 5 - 2 sqrt 5, both in (0, 1), at rest |
| ResamplerFactories.Chebychev7 | src/dsp/sampleRate.cpp:13-19 | two direct and one delayed section, with coefficients in (0, 1), at rest |
| ResamplerFactories.Chebychev9 | src/dsp/sampleRate.cpp:20-26 | two direct and two delayed sections, with coefficients in (0, 1), at rest |
| ResamplerFactories.DummyResampler | src/dsp/sampleRate.cpp:27-30 | the factor-1 identity resampler |
| ResamplerFactories.X4Cheby7 | src/dsp/sampleRate.cpp:31-34 | factor 4, both stages built as the Chebychev7 half-band |
| ResamplerFactories.FactoriesAtRest | src/dsp/sampleRate.cpp:6-34 | every factory's resampler is valid and at rest, and every cascade is stable |
| TfdspResamplerFactories.Butterworth5 | src/tfdsp/sampleRate.cpp:6-15 | builds exactly the resampler of the `dsp` Butterworth5 factory |
| TfdspResamplerFactories.Chebychev7 | src/tfdsp/sampleRate.cpp:16-23 | builds exactly the resampler of the `dsp` Chebychev7 factory |
| TfdspResamplerFactories.Chebychev9 | src/tfdsp/sampleRate.cpp:24-31 | builds exactly the resampler of the `dsp` Chebychev9 factory |
| TfdspResamplerFactories.DummyResampler | src/tfdsp/sampleRate.cpp:32-35 | builds exactly the `dsp` identity resampler |
| TfdspResamplerFactories.X4Cheby7 | src/tfdsp/sampleRate.cpp:36-39 | builds exactly the `dsp` ×4 resampler |
| VcaCore.TanhStageProcess | src/models/VCAcore.hpp:20-25 | the memory-1 stage remembers exactly its last argument |
| VcaCore.StepPair | src/models/VCAcore.hpp:97-101 | one `StepDual` of the pair succeeds iff both paths' own `Step`s succeed; then the outputs are theirs and each next model is its own `Step`'s |
| VcaCore.InitialModels | src/models/VCAcore.hpp:43 | the value-initialised pair of integrators of the chosen kind is at rest |
| VcaCore.NewVca | src/models/VCAcore.hpp:43-64 | both paths are value-initialised to rest and start at the model's `DefaultRolloff`, both resamplers come from the factory, the output stage is at 0 and the rate is unset |
| VcaCore.SetSampleRate | src/models/VCAcore.hpp:65-74 | the rate is f0 times the resampling factor; each gain is 2 tan(pi rolloff / rate); nothing else changes |
| VcaCore.Ticks | src/models/VCAcore.hpp:94-104 | one output per oversampled tick; the first tick is the first `StepDual` pair's product divided by 3 |
| VcaCore.OutputStage | src/models/VCAcore.hpp:106-109 | one output per tick; the stage then remembers the last tick's argument finalGain a / 12 |
| VcaCore.Step | src/models/VCAcore.hpp:75-90 | fails exactly when the rate is <= 0; otherwise the CV resampler is only upsampled (with 3 cv), and the rate and gains are kept |
| VcaCore.OutputStageIsStream | src/models/VCAcore.hpp:106-109 | the output stage is 12 times the discrete-gradient stream of the arguments finalGain a / 12, the first paired with the stage memory |
| VcaCore.SilentOutputStage | src/models/VCAcore.hpp:106-109 | silence through a resting output stage stays silent and leaves the stage at rest |
| VcaCore.ScalingUndone | src/models/VCAcore.hpp:103 | a tick of audio a and scaled CV 3c yields exactly a c |
| VcaCore.SettledOtaTick | src/models/VCAcore.hpp:94-104 | with both OTA paths settled on their inputs, a tick's output is audio times cv |
| VcaCore.RestingTick | src/models/VCAcore.hpp:97-103 | paths at rest fed zeros return zeros and stay at rest |
| VcaCore.SilentTicks | src/models/VCAcore.hpp:94-104 | a block of zero ticks from rest yields zeros and leaves the paths unchanged |
| VcaCore.SilenceAtRest | src/models/VCAcore.hpp:75-110 | a VCA at rest fed silence without noise outputs 0 and its state does not move |
| VcaCore.FreshVcaSilent | src/models/VCAcore.hpp:43-110 | a newly constructed VCA whose resamplers start at rest, once its rate is set, outputs 0 for silence and does not move |
| VcaCore.StepUnresolved | src/models/VCAcore.hpp:75-90 | with a valid rate, a step is unresolved exactly when some tick of the block is |
| VcaCore.StepIsPipeline | src/models/VCAcore.hpp:75-110 | the output is the audio resampler's decimation of 12 times the tanh stream of the ticks' gained values |
| Bdf.Coefficients | src/models/ode.hpp:86-248 | the order-k history weights (the `midTerm` coefficients) sum to -1 for every order 1..6 |
| Bdf.CoefficientsExact | src/models/ode.hpp:86-248 | each order's weights and right coefficient satisfy the BDF order conditions: the formula is exact for polynomials of degree <= k |
| Bdf.CombineConstant | src/models/ode.hpp:117-121 | a history whose columns all equal v combines to (sum of weights) v |
| Bdf.Newton | src/models/ode.hpp:278-293 | at most `remaining` corrections; stopping early happens exactly where the residual is within tolerance or the increment is <= incrementEps, and the rejected increment is not applied |
| Bdf.NewtonSolve | src/models/ode.hpp:260-296 | starts from the explicit Euler guess, applies at most maxIterations corrections, writes only column 0 and never fails |
| Bdf.NewtonAtEquilibrium | src/models/ode.hpp:274-295 | when the last state c is an equilibrium and midTerm is -c, the solve stores c with no corrections |
| Bdf.Shift | src/models/ode.hpp:98-101 | columns 2..k+1 take the old columns 1..k, column 1 takes the new state, and higher columns are untouched |
| Bdf.SubStep | src/models/ode.hpp:86-248 | with n known steps: when n >= k or k = 1, the order-k step solves once and keeps the count n (so order 1 leaves n = 0 at 0); when k >= 2 and 1 <= n < k, it performs k - n + 1 solves through the fallbacks and ends with count k; when k >= 2 and n = 0, it performs k solves, as n = 1 would, and ends with count k; column 1 equals column 0 and columns above k+1 are untouched |
| Bdf.SubStepAtEquilibrium | src/models/ode.hpp:86-248 | an equilibrium history is reproduced exactly by every order, bootstrapping included |
| Bdf.SolveAtEquilibrium | src/models/ode.hpp:260-296 | one solve and shift from an equilibrium history gives back the same history |
| Bdf.NewIntegrator | src/models/ode.hpp:55-58 | the history starts at zero with no known steps |
| Bdf.SetSampleRate | src/models/ode.hpp:59-62 | the step size is 1 / rate, and nothing else changes |
| Bdf.SetInitConditions | src/models/ode.hpp:63-70 | every column is zeroed, then the initial state is written to columns 0 and 1, and one step is known |
| Bdf.Step | src/models/ode.hpp:71-74 | one order-k step updates the known-step count and keeps columns above k+1; the current state is the newest history column |
| Bdf.CurrentState | src/models/ode.hpp:75-78 | the current state is column 0 |
| VanDerPol.DyDt | src/models/VanDerPoleODE.hpp:31-37 | the first component of the vector field is the velocity |
| VanDerPol.Jacobian | src/models/VanDerPoleODE.hpp:38-44 | the Jacobian is 2 x 2 with first row (0, 1) |
| VanDerPol.AsOde | src/models/VanDerPoleODE.hpp:31-44 | the model maps 2-vectors to 2-vectors and 2 x 2 Jacobians |
| VanDerPol.Equilibrium | src/models/VanDerPoleODE.hpp:31-37 | (x, 0) is an equilibrium for forcing x, for every mu and w |
| VanDerPol.EquilibriaAreRest | src/models/VanDerPoleODE.hpp:31-37 | with w != 0 every equilibrium is (x, 0) |
| VanDerPol.JacobianVelocityColumn | src/models/VanDerPoleODE.hpp:31-44 | along the velocity the vector field moves by exactly h times the Jacobian's column 1 |
| VanDerPol.JacobianPositionColumn | src/models/VanDerPoleODE.hpp:31-44 | along the position the vector field moves by h times the Jacobian's column 0, up to the h^2 term of the damping |
| VanDerPol.JacobianIgnoresInput | src/models/VanDerPoleODE.hpp:38-44 | the Jacobian does not depend on the forcing input |
| VdpOscillator.NewOscillator | src/models/VdpOscillator.hpp:59-65 | the integrator is seeded with (0, 1), one step known, the rate unset, and three resamplers from the factory |
| VdpOscillator.SetSampleRate | src/models/VdpOscillator.hpp:67-74 | the rate is f0 times the factor; the integrator is re-seeded from its current state, not from (0, 1), and its step size is 1 / rate |
| VdpOscillator.ClampMu | src/models/VdpOscillator.hpp:41 | mu >= 1e-8, unchanged when already above |
| VdpOscillator.ClampW | src/models/VdpOscillator.hpp:42 | w lies in [1e-4, 2 pi 4200], unchanged when already inside |
| VdpOscillator.DerivMax | src/models/VdpOscillator.hpp:50 | the velocity bound is 24 times the rate, non-negative for a non-negative rate |
| VdpOscillator.ClampState | src/models/VdpOscillator.hpp:46-52 | the position lies in [-12, 12] and the velocity in [-derivMax, derivMax], each unchanged when already inside |
| VdpOscillator.ModelStep | src/models/VdpOscillator.hpp:39-55 | the parameters are clamped; after the BDF step, history columns 0 and 1 have positions in [-12, 12] and velocities within 2·12·rate; the tick returns the clamped position |
| VdpOscillator.ClampNewest | src/models/VdpOscillator.hpp:45-52 | columns 0 and 1 of the history are clamped and every older column is kept |
| VdpOscillator.ModelStepIsClampedStep | src/models/VdpOscillator.hpp:39-55 | a tick is exactly `Bdf.Step` of the clamped system with columns 0 and 1 clamped: the older columns are the stepped ones, columns past order + 1 are those from before the tick, and columns 0 and 1 are equal |
| VdpOscillator.RunTicks | src/models/VdpOscillator.hpp:88-91 | one output per oversampled sample, each within [-12, 12]; the first is the first `ModelStep`'s, and only the parameters and the integrator change |
| VdpOscillator.RunTicksCons | src/models/VdpOscillator.hpp:88-91 | the ticks are the first `ModelStep`, then the remaining ticks run on the oscillator it leaves |
| VdpOscillator.Step | src/models/VdpOscillator.hpp:76-94 | fails exactly when the rate is <= 0, and keeps the rate |
| VdpOscillator.StepTicks | src/models/VdpOscillator.hpp:76-94 | a step runs exactly Factor ticks, all within +-12, and downsamples them with the input's resampler |
| VdpOscillator.ModelStepAtRest | src/models/VdpOscillator.hpp:39-55 | with the history resting at (c, 0) and input c, a tick returns c and leaves the history unchanged, for every BDF order |
| Filters.DelayRun | src/tfdsp/filters.hpp:37-42 | one output per input |
| Filters.DelayStream | src/tfdsp/filters.hpp:31-43 | the outputs are the stored sample followed by every input but the last, which is then stored |
| Filters.NewDelayStream | src/tfdsp/filters.hpp:31-43 | the first call returns 0 and each later call the previous input |
| Filters.NewAllPass | src/tfdsp/filters.hpp:51-54 | the coefficient is stored and the state starts at 0 |
| Filters.AllPassProcess | src/tfdsp/filters.hpp:55-62 | the coefficient is kept |
| Filters.AllPassDifferenceEquation | src/tfdsp/filters.hpp:55-62 | two consecutive outputs satisfy y[n] + a y[n-1] == a x[n] + x[n-1], the transfer function (a + z^-1)/(1 + a z^-1) |
| Filters.AllPassDcFixedPoint | src/tfdsp/filters.hpp:55-62 | with input c and state c/(1 + a), the output is c and the state is unchanged |
| Filters.NewBiquad | src/tfdsp/filters.hpp:76-89 | every coefficient is divided by a[0], so the stored a[0] is 1; undefined exactly when a[0] == 0 |
| Filters.BiquadProcess | src/tfdsp/filters.hpp:90-96 | the coefficients are kept |
| Filters.BiquadSilence | src/tfdsp/filters.hpp:90-96 | zero in with zero state gives zero out and the state stays zero |
| Filters.BiquadDifferenceEquation | src/tfdsp/filters.hpp:90-96 | from any state, the third of three consecutive TDF2 outputs satisfies the normalised difference equation y3 + a1 y2 + a2 y1 == b0 x3 + b1 x2 + b2 x1 |
| Filters.BiquadRealisesTransfer | src/tfdsp/filters.hpp:66-96 | the normalised biquad realises the unnormalised transfer function: a0 y3 + a1 y2 + a2 y1 == b0 x3 + b1 x2 + b2 x1 |
| Filters.LowPassProcess | src/tfdsp/filters.hpp:116-126 | the output solves the zero-delay loop y == s1 + g (x - y), and the state becomes 2y - s1; undefined exactly when 1 + g == 0 |
| Filters.HighPassProcess | src/tfdsp/filters.hpp:138-148 | the output solves y == x - (s1 + g y), and the state becomes s1 + 2 g y; undefined exactly when 1 + g == 0 |
| Filters.LowPassDcFixedPoint | src/tfdsp/filters.hpp:116-126 | when the input equals the state, the output equals the state and the state is unchanged |
| Filters.HighPassDcFixedPoint | src/tfdsp/filters.hpp:138-148 | when the input equals the state, the output is 0 and the state is unchanged |
| Filters.ZdfComplementary | src/tfdsp/filters.hpp:108-148 | from equal states, low-pass plus high-pass is the input, and the two states stay equal |
| Filters.NewtonUpdate | src/tfdsp/filters.hpp:182-184 | defined exactly when the derivative 1 + g (1 - tanh^2 u) is non-zero; an exact root is a fixed point |
| Filters.Newton | src/tfdsp/filters.hpp:180-185 | zero iterations keep the guess |
| Filters.NewtonAtRoot | src/tfdsp/filters.hpp:180-185 | iterating from an exact root keeps it for any iteration count |
| Filters.OtaGuess | src/tfdsp/filters.hpp:177-178 | the guess is the root of the linearised equation u + g u - x + s1 == 0 |
| Filters.OtaOutput | src/tfdsp/filters.hpp:187-191 | the state becomes 2y - s1, and `_u1` is left as it was |
| Filters.OtaLowPassProcess | src/tfdsp/filters.hpp:165-192 | exactly `iterations` Newton updates are performed; the result exists iff 1 + g != 0 and every update is defined; the output is computed from the final iterate |
| Filters.OtaLowPassDcFixedPoint | src/tfdsp/filters.hpp:165-192 | when the input equals the state, the iteration stays at 0, the output is the input and the state is unchanged |
| Filters.OtaLowPassSolvesLoop | src/tfdsp/filters.hpp:171-189 | at an exact root the output satisfies the OTA loop y == s1 + g tanh(x - y) |
| Noise.Filter3dbPerOctave | src/tfdsp/noise.hpp:43-57 | the output is b0 x + sum over i = 1..3 of (bi xi - ai yi); x and y shift by one, holding the input and the output at 0 and 1 |
| Noise.PinkSuperposition | src/tfdsp/noise.hpp:43-57 | the pinking filter's output is linear in its state and its input |
| Noise.PinkSilence | src/tfdsp/noise.hpp:36-57 | zero state with zero input gives zero output, and the shifted history a step leaves is zero again |
| Noise.PinkDcGain | src/tfdsp/noise.hpp:38-49 | a constant history of input c and output gain·c, with gain (sum b)/(sum a), reproduces gain·c |
| Noise.DetuneArgument | src/tfdsp/noise.hpp:75-76 | the log argument is at least 1e-8, equal to det/f0 + 2^vOct when that is at least 1e-8 |
| Noise.DetuneLinear | src/tfdsp/noise.hpp:72-78 | ln 2 times the result is the log of the clamped argument; with f0 == 0 and det <= 0 the -inf or NaN quotient is clamped, so it is log(1e-8); undefined exactly when f0 == 0 and det > 0 (+inf), or ln 2 == 0 |
| Noise.DetuneAddsFrequency | src/tfdsp/noise.hpp:68-78 | f0 2^out == f0 2^vOct + det whenever det/f0 + 2^vOct >= 1e-8 |
| Noise.DetuneAddsFrequencyAtMiddleC | src/tfdsp/noise.hpp:68-72 | with the default f0 = 261.63 Hz, the output converted to a frequency is f0 2^vOct + det |
| Noise.DetuneIdentity | src/tfdsp/noise.hpp:68-71 | with det = 0 the output is vOct, whenever 2^vOct >= 1e-8 |
| Noise.DetuneClamped | src/tfdsp/noise.hpp:75-77 | below the clamp the output is log(1e-8)/ln 2 |
| Noise.DetuneZeroReferenceIsClamped | src/tfdsp/noise.hpp:74-77 | f0 == 0 with det <= 0 gives exactly the output of any call below the clamp |

## Left out

- Floating-point rounding is not modelled: float and double are `real`. So are the `float` casts at the VCA and oscillator interfaces, and the single-precision literals of the pinking filter.
- The precision-dependent constants (`_TanhEpsilon`, `BDFNewtonConstants::incrementEps`) are modelled for float and double only. Other scalar types do not occur.
- Transcendental functions are uninterpreted. Only the facts listed in `Scalars` are assumed, and only by the members that require them.
- Eigen's `colPivHouseholderQr().solve` and `norm()` are an oracle (`Bdf.LinearSolver`). Nothing is claimed about the accuracy of the Newton corrections.
- Secant.Solve: the C++ loop has no iteration cap, so its termination is not claimed. The model runs with fuel, and an exhausted fuel gives `OutOfFuel`. A VCA tick whose path is `OutOfFuel` or `Undefined` makes the VCA step `Unresolved`, where the C++ solve loop would never exit.
- OtaIntegrator.Step and TransistorIntegrator.Step: a division by zero in the first guess or the unguarded first secant step gives `Undefined`. In the C++ the guess becomes infinite or NaN and its residual NaN, so both exit comparisons of the `while (true)` loop stay false and `Step` never returns: the same observable behaviour as `OutOfFuel`.
- Bdf.Step requires a step size. The C++ reads `_T` uninitialised until `SetSampleRate` is called, and infinite after `SetSampleRate(0)`.
- VcaCore.Step takes the noise sample as a parameter. The white-noise source, the pink noise it feeds, and the standard deviation sqrt(noiseLevel · rate / 2) are left out, because they are random draws and a square root of the rate.
- VcaCore.Step: the VCA's output-stage `Tanh<Float>` comes from a header that is not part of this model. It is modelled as the double-precision scalar discrete gradient of nonlinear.hpp.
- `WhiteNoiseSource` and `PinkNoiseSource::Step`: random sources. The pinking filter itself is modelled.
- `SecondOrderBiquad::ButterworthLowPass` and the bilinear prewarp helpers are left out. They are coefficient derivations through `tan`, `atan` and `sqrt` that nothing in the core depends on.
- Filters.OtaLowPassProcess: the member `_u1` is declared but never read or written by the C++. The model keeps it and proves it unchanged.
- Filters.NewBiquad gives `None` when a[0] == 0. The C++ divides every coefficient by zero and goes on with infinite or NaN coefficients.
- Filters.LowPassProcess gives `None` when 1 + g == 0. The C++ divides by zero and goes on with an infinite or NaN output and state.
- Filters.HighPassProcess gives `None` when 1 + g == 0, for the same division as the low-pass.
- Filters.NewtonUpdate gives `None` when the derivative 1 + g (1 - tanh^2 u) is 0. The C++ divides by zero and goes on with an infinite or NaN iterate.
- Filters.OtaLowPassProcess gives `None` when 1 + g == 0 (the initial guess) or when any Newton update's derivative is 0. The C++ goes on with infinite or NaN values.
- TfdspResamplerFactories.Butterworth5: src/tfdsp/sampleRate.hpp is not part of this model. The `tfdsp` resampler classes are taken to behave as the `dsp` ones of src/dsp/sampleRate.hpp, so the factory is modelled as building the `dsp` resampler from its own literals.
- TfdspResamplerFactories.Chebychev7: built as the `dsp` resampler, for the same reason.
- TfdspResamplerFactories.Chebychev9: built as the `dsp` resampler, for the same reason.
- TfdspResamplerFactories.DummyResampler: built as the `dsp` identity resampler, for the same reason.
- TfdspResamplerFactories.X4Cheby7: built as the `dsp` ×4 resampler, for the same reason.
- Noise.DetuneLinear gives `None` when f0 == 0 and det > 0, where the C++ returns +inf (log of +inf), and when ln 2 == 0, which the real log never gives but the uninterpreted one does not exclude. With f0 == 0 and det <= 0 the model follows the C++: the clamp turns the -inf or NaN quotient into 1e-8. The only callers, TfSlop.cpp and TfSlop4.cpp, pass the default f0 = 261.63.
- Noise.DetuneIdentity: the identity promised by the doc comment holds only while 2^vOct >= 1e-8. Below that, the clamp returns log2(1e-8) instead (Noise.DetuneClamped).
- Rack host glue: module registration, widgets, panels, parameter wiring, lights and the sample-rate callbacks (TfVCA, TfVDPO, TfSlop, TfSlop4, TfElements, components). It is outside the numerical engine.
- The Python and console test harnesses are not part of this model.
