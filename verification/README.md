# Double pendulum simulation core, in Dafny

This project models the simulation core of a chaotic double-pendulum
program and proves properties of the model. The core has four parts:

- **`Pendulum`** (`pendulum.dfy`): the pendulum state (θ1, θ2, ω1, ω2) and
  its physical parameters (masses, arm lengths, gravity, damping). It covers
  bob positions, kinetic, potential and total energy, angle normalisation,
  parameter validation, and the `DoublePendulum` record, which pairs a state
  and parameters with the elapsed simulation time.
- **`Physics`** (`physics.dfy`): the physics engine.
  - `StateDerivative` algebra and the Lagrangian equations of motion,
    solved by Cramer's rule with a guarded determinant.
  - The explicit Euler step and the classic Runge–Kutta 4 step, both with
    angle renormalisation.
  - The per-step relative energy error.
  - The step-doubling adaptive integrator.
- **`Statistics`** (`statistics.dfy`): bounded histories of energy,
  trajectory and phase-space samples, and the analyses over them.
  - Current, maximum, minimum and mean energy.
  - The energy-conservation measure: the standard deviation of the total
    energy.
  - Periodicity detection in phase space.
  - The Lyapunov-exponent estimate.
- **`Presets`** (`presets.dfy`): the eight named starting configurations,
  with lookup by name and by category.

`numerics.dfy` holds the real-number counterparts of the f64 operations
the core uses. `wrappers.dfy` holds `Option` and `Result`.

f64 values are modelled as mathematical reals. `sin`, `cos`, `sqrt` and
`ln` are not defined in the model. They are the fields of an `Fns` record
that every operation needing them takes as a parameter. Each property
requires only the law it uses:

- `TrigAtZero`: sin 0 = 0 and cos 0 = 1.
- `CosSquaredAtMostOne`
- `Pythagorean`
- `SqrtLaws`: sqrt 0 = 0, non-negative, strictly increasing.
- `LnLaws`: ln 1 = 0, strictly increasing.

`usize` subtraction panics on underflow. The model writes it as `USub`,
whose precondition makes every call site prove that no underflow happens.

The engine's only field is its step size. So every integrator takes the
step `dt` as its first argument, and `SetDt` models the clamp that
`set_dt` applies.

## Model

| member | source | states |
|---|---|---|
| Numerics.RemTwoPi | src/pendulum.rs:168 | `x % (2π)` truncates toward zero: the remainder has the sign of x and magnitude below 2π, differs from x by whole turns, and is x itself when abs(x) < 2π |
| Numerics.USub | src/statistics.rs:171-172 | `usize` subtraction is defined only when it does not underflow; the result plus the subtrahend gives back the minuend |
| Numerics.MeanBetween | src/statistics.rs:127-134 | a mean lies between any lower and upper bound of its terms |
| Pendulum.ArmLengthsPreserved | src/pendulum.rs:30-41 | the upper bob lies at distance l1 from the pivot, and the lower bob at distance l2 from the upper one |
| Pendulum.PositionsHangingDown | src/pendulum.rs:30-41 | at θ1 = θ2 = 0 the bobs hang straight down, at (0, −l1) and (0, −l1 − l2) |
| Pendulum.KineticEnergy | src/pendulum.rs:45-64 | kinetic energy is non-negative for non-negative masses and zero when both links are at rest |
| Pendulum.KineticEnergyQuadratic | src/pendulum.rs:45-64 | scaling both angular velocities by c scales the kinetic energy by c² |
| Pendulum.PotentialEnergy | src/pendulum.rs:67-79 | potential energy is g times the mass-weighted heights of the two bobs, with the pivot as zero |
| Pendulum.PotentialEnergyBounds | src/pendulum.rs:67-79 | for valid parameters, the potential energy lies between −((m1+m2)·g·l1 + m2·g·l2) and its negation |
| Pendulum.TotalEnergy | src/pendulum.rs:82-84 | total minus potential energy is the kinetic energy; the total is at least the potential energy, and equal to it at rest |
| Pendulum.AtRestHasNoKineticEnergy | src/pendulum.rs:94-96 | a state built at rest has zero velocities and no kinetic energy |
| Pendulum.NormalizeAngle | src/pendulum.rs:167-175 | the result lies in [−π, π], differs from the input by whole turns, and is the input itself when that already lies in [−π, π] |
| Pendulum.NormalizeAngleIdempotent | src/pendulum.rs:167-175 | normalising twice is normalising once |
| Pendulum.NormalizeAngles | src/pendulum.rs:87-90 | both angles are brought into [−π, π] by whole turns; the velocities are untouched |
| Pendulum.Validate | src/pendulum.rs:130-151 | Ok exactly for positive masses, lengths and gravity and non-negative damping; otherwise the first failing check in the order m1, m2, l1, l2, g, damping |
| Pendulum.DefaultParamsValidate | src/pendulum.rs:153-164 | the default parameters validate, and a negative upper mass is rejected with the first error |
| Pendulum.NewDoublePendulum | src/pendulum.rs:190-196 | a new system starts at time zero with the given state and parameters |
| Pendulum.ClockLaws | src/pendulum.rs:199-207 | advancing by a then b is advancing by a + b; time does not go backwards for a non-negative step; a reset after advancing is a fresh system |
| Pendulum.Reset | src/pendulum.rs:199-202 | a reset installs the new state, keeps the parameters and restarts the clock at zero |
| Pendulum.AdvanceTime | src/pendulum.rs:205-207 | advancing adds dt to the clock and keeps the state and parameters |
| Pendulum.SystemEnergies | src/pendulum.rs:210-222 | the system's total energy is its kinetic plus potential energy; advancing the clock changes none of them; after a reset they are the new state's |
| Pendulum.Positions | src/pendulum.rs:225-231 | the first position is the upper bob; the lower bob is offset from it by the lower arm |
| Physics.ScalingDistributes | src/physics.rs:25-42 | scaling a sum of derivatives is the sum of the scaled derivatives |
| Physics.ScalingComposes | src/physics.rs:25-32 | scaling by x and then by y is scaling by x·y |
| Physics.AddCommutes | src/physics.rs:35-42 | adding derivatives is commutative |
| Physics.MulScalar | src/physics.rs:25-32 | every rate is scaled by the scalar; scaling by one is the identity and scaling by zero gives the zero derivative |
| Physics.Add | src/physics.rs:35-42 | rates add componentwise, and the zero derivative is the identity |
| Physics.AddScaledDerivative | src/physics.rs:190-202 | each component moves by its rate times the time; following for no time or along the zero derivative stays put |
| Physics.FollowingSums | src/physics.rs:190-202 | following a sum of derivatives is following one and then the other; following with scale zero leaves the state unchanged |
| Physics.SetDt | src/physics.rs:58-60 | the step size never drops below 1e-6, and steps at or above 1e-6 are kept |
| Physics.DefaultDt | src/physics.rs:261-265 | the default engine's step, 1 ms, lies above the 1e-6 floor, so `set_dt` keeps it |
| Physics.GuardDeterminant | src/physics.rs:128-135 | the guarded determinant has magnitude at least 1e-10, keeps the sign (zero counts as positive), and equals the determinant when its magnitude is at least 1e-10 |
| Physics.Accelerations | src/physics.rs:128-139 | Cramer's rule with the guarded determinant: the accelerations solve the 2×2 mass-matrix system with its right-hand sides scaled by det / guarded det, which is the exact system whenever the guard leaves det alone |
| Physics.ComputeDerivatives | src/physics.rs:82-142 | the angle rates are the angular velocities; the accelerations solve the Lagrange system at the state with right-hand sides scaled by det / guarded det, exactly when the guard does not fire |
| Physics.EquilibriumHasZeroDerivative | src/physics.rs:82-142 | the hanging equilibrium has zero derivative |
| Physics.RestoringTorque | src/physics.rs:82-142 | with both links at rest and the lower link hanging down, the upper link's acceleration opposes the sign of sin θ1: gravity restores |
| Physics.EulerStep | src/physics.rs:146-154 | an Euler step advances each angle by its velocity times dt and renormalises it, and advances each velocity by its acceleration times dt |
| Physics.EulerAtRestKeepsAngles | src/physics.rs:146-154 | for any step and parameters, an Euler step from a state at rest with both angles in [−π, π] leaves both angles unchanged (the as-written half of the finding below) |
| Physics.EulerAtRestExample | src/physics.rs:320-330 | the Euler test's own input, (0.1, 0.2) at rest with dt = 0.001 and the default parameters, keeps θ1 = 0.1 and θ2 = 0.2 after one step |
| Physics.EulerFromRestGainsVelocity | src/physics.rs:146-154 | from rest at an angle with sin θ1 ≠ 0, any non-zero Euler step gives the upper link a non-zero velocity, of the sign opposite to sin θ1 for a forward step (the corrected half of the finding below) |
| Physics.Rk4Step | src/physics.rs:157-187 | an RK4 step advances the state by dt times the 1-2-2-1 weighted mean slope, renormalising the angles; each angle's mean rate is its velocity plus dt/6 times the first three stages' accelerations |
| Physics.Rk4SlopesFollowStages | src/physics.rs:157-176 | k1 is the derivative at the state, and k2, k3, k4 are the derivatives at the state moved along k1 by dt/2, along k2 by dt/2 and along k3 by dt |
| Physics.MeanSlopeAverages | src/physics.rs:178-183 | the mean slope is one sixth of k1 + 2·k2 + 2·k3 + k4 built with the derivative algebra; each of its components lies between the least and greatest of the four slopes' components, and four equal slopes average to themselves |
| Physics.Rk4ConsistentWithEuler | src/physics.rs:146-187 | when all four slopes agree, the RK4 update is the Euler update |
| Physics.EquilibriumIsFixedPoint | src/physics.rs:146-187 | both integrators leave the hanging equilibrium unchanged |
| Physics.EnergyError | src/physics.rs:69-74 | the energy error is non-negative and zero exactly when the energy is unchanged; it is relative to the initial energy above 1e-10 in magnitude, absolute otherwise |
| Physics.StepReportsEnergyError | src/physics.rs:63-78 | a step returns the RK4 state and the energy error between the energies before and after it |
| Physics.EquilibriumStepIsExact | src/physics.rs:63-78 | a step from equilibrium stays there with zero energy error |
| Physics.EstimateError | src/physics.rs:248-257 | the error estimate is the largest absolute component difference: it bounds every difference, equals one of them, and is zero exactly when the states agree |
| Physics.IntegrateAdaptive | src/physics.rs:206-245 | the loop terminates for any error values; the step tried last is the engine's dt halved some k times, and every step with fewer halvings had an error estimate at or above the tolerance and halved to more than the 1e-8 floor, so the loop stops at the first halving that reaches the floor; it returns the half-step result with a grown or kept step when that step's error is below the tolerance, or its full-step result with dt = 1e-8 at the floor; the step returned never exceeds max(dt, 1e-2) |
| Statistics.Push | src/statistics.rs:32-45 | a push keeps the newest samples in order, ending with the new one, and never exceeds the capacity when the buffer was within it |
| Statistics.PushAllKeepsNewest | src/statistics.rs:32-45 | any sequence of pushes onto a buffer within capacity keeps exactly the newest `cap` samples of everything seen |
| Statistics.New | src/statistics.rs:22-29 | a new record has the given capacity, empty histories and no data |
| Statistics.Default | src/statistics.rs:266-270 | the default capacity is 2000 |
| Statistics.AddEnergyData | src/statistics.rs:32-45 | only the energy history changes, by one bounded push |
| Statistics.AddTrajectoryPoint | src/statistics.rs:48-55 | only the trajectory history changes, by one bounded push |
| Statistics.AddPhaseSpacePoint | src/statistics.rs:58-66 | only the phase-space history changes, by one bounded push |
| Statistics.ClearHistory | src/statistics.rs:69-73 | clearing empties all three histories and keeps the capacity |
| Statistics.HistoryLength | src/statistics.rs:91-93 | the history length is zero exactly for an empty energy history, and a record within capacity never exceeds the capacity |
| Statistics.HasData | src/statistics.rs:137-139 | there is data exactly when the history length is positive |
| Statistics.RecordingEnergyGrowsHistory | src/statistics.rs:32-45 | the history length grows by one per recorded energy sample until it reaches the capacity and then stays there; there is data afterwards exactly when the capacity is positive |
| Statistics.CurrentTotalEnergy | src/statistics.rs:96-98 | None exactly without data, else the newest sample's total |
| Statistics.CurrentKineticEnergy | src/statistics.rs:101-103 | None exactly without data, else the newest sample's kinetic energy |
| Statistics.CurrentPotentialEnergy | src/statistics.rs:106-108 | None exactly without data, else the newest sample's potential energy |
| Statistics.RecordingSetsCurrentEnergy | src/statistics.rs:96-108 | with a positive capacity, the current total, kinetic and potential energies after recording a sample are that sample's |
| Statistics.MaxTotalEnergy | src/statistics.rs:111-116 | None exactly without data, else a recorded total no smaller than any other |
| Statistics.MinTotalEnergy | src/statistics.rs:119-124 | None exactly without data, else a recorded total no larger than any other |
| Statistics.AverageTotalEnergy | src/statistics.rs:127-134 | None exactly without data, else the value that times the count gives the sum of the totals |
| Statistics.AverageBetweenMinAndMax | src/statistics.rs:111-134 | the average lies between the minimum and the maximum |
| Statistics.EnergyConservation | src/statistics.rs:142-153 | None exactly with fewer than two samples |
| Statistics.EnergyConservationZeroIffConstant | src/statistics.rs:142-153 | the measure is non-negative, and zero exactly when every total energy is the same |
| Statistics.DistanceLaws | src/statistics.rs:179-184 | phase-space distances are non-negative, and zero from a point to itself |
| Statistics.ComparePairsFrom | src/statistics.rs:170-192 | the inner loop accepts exactly when every compared pair lies within the tolerance; pairs are compared until the earlier index would fall below one period, at most ten |
| Statistics.ScanFindsFirstMatch | src/statistics.rs:166-199 | the outer loop returns the smallest matching candidate period, and None only when no candidate matches |
| Statistics.DetectPeriodicity | src/statistics.rs:157-160 | too short a history yields None |
| Statistics.DetectPeriodicitySound | src/statistics.rs:157-200 | a detected period is at least the minimum, below half the history, matches, is the smallest that does, and was checked on at least the newest pair; None means no candidate matched |
| Statistics.ExactlyPeriodicDetected | src/statistics.rs:157-200 | a history that repeats exactly with period P yields a period of at most P for any non-negative tolerance |
| Statistics.NearestFromIsNearest | src/statistics.rs:222-237 | the neighbour scan keeps the first strictly closest candidate above the 1e-8 floor, or finds nothing when every candidate is within the floor |
| Statistics.NearestNeighbourIsNearest | src/statistics.rs:218-237 | the neighbour lies between i + 10 and i + 50 (clipped), is at the smallest distance above 1e-8, and earlier candidates are strictly farther; None when all candidates are within 1e-8 |
| Statistics.DivergenceAt | src/statistics.rs:239-254 | a rate is produced exactly when a neighbour exists, its future lies in the history, and the future distance exceeds 1e-8 |
| Statistics.DivergenceSign | src/statistics.rs:249-252 | a rate is non-negative exactly when the pair's distance did not shrink over the window |
| Statistics.DivergencesCollect | src/statistics.rs:214-255 | at most one rate per reference point, none exactly when no reference yields one, and every rate within bounds all references respect |
| Statistics.EstimateLyapunov | src/statistics.rs:204-207 | a history shorter than the window plus 100 yields None |
| Statistics.EstimateLyapunovBetween | src/statistics.rs:204-262 | the estimate exists exactly when some reference yields a rate, and it lies within any bounds every rate respects |
| Statistics.StationaryHistoryHasNoEstimate | src/statistics.rs:204-262 | a trajectory resting at one point yields no estimate |
| Presets.AllPresets | src/presets.rs:40-136 | the table holds exactly eight presets |
| Presets.PresetsValidate | src/presets.rs:40-136 | every preset's parameters pass validation |
| Presets.PresetsDescribed | src/presets.rs:40-136 | every preset has a non-empty name and description |
| Presets.PresetNamesDistinct | src/presets.rs:40-136 | no two presets share a name |
| Presets.FindByName | src/presets.rs:140-142 | the index returned holds the name and no earlier entry does; None exactly when no entry holds it |
| Presets.PresetByName | src/presets.rs:140-142 | a found preset has the name and is in the table; None exactly when no preset has the name |
| Presets.PresetByNameRoundTrip | src/presets.rs:140-142 | looking up a preset's own name gives back that preset |
| Presets.PresetByNameExamples | src/presets.rs:194-201 | "Small Angle" is found and "Nonexistent" is not |
| Presets.CategoriesFromTable | src/presets.rs:156-180 | every category's positions lie within the table, and every category is non-empty |
| Presets.PresetsByCategory | src/presets.rs:156-180 | Basic holds two presets and every other category three |
| Presets.CategoryContents | src/presets.rs:156-180 | each category holds the presets its comments name, in order |
| Presets.EveryPresetCategorised | src/presets.rs:156-180 | every preset belongs to some category |

## Left out

- The program's window, drawing, keyboard and slider handling, UI status
  flags and wall-clock throttling are not part of this model. It models
  only the core.
- IEEE-754 details are not modelled: rounding, NaN, infinities and signed
  zero. Reals stand in for f64 throughout, and sin, cos, sqrt and ln are
  parameters. So the program's numerical tests that compare computed
  values are out of reach: energy drift over many RK4 steps
  (src/physics.rs:347-364), RK4 differing from Euler (src/physics.rs:333-344),
  the sign of the first accelerations (src/physics.rs:389-405; its
  sign-level content is `Physics.RestoringTorque`) and negative potential
  energy (src/pendulum.rs:276, :313). The Euler test at
  src/physics.rs:320-330 is under "## Findings".
- The trigonometric, square-root and logarithm functions are parameters
  with stated laws, not definitions.
- Serialization derives are not modelled.
- Statistics.DetectPeriodicity: requires `minPeriod >= 1` whenever the
  history holds at least two samples. With a minimum period of zero the
  source divides by zero in `len / period` and panics.
- Statistics.EstimateLyapunov: requires a window of at least 1. With a
  zero window the source divides 0 by 0 and gets NaN, which has no real
  counterpart.
- Statistics.DetectPeriodicity: `min_period * 2` is a `usize` product.
  For a huge `min_period` it overflows, which panics in a debug build and
  wraps in a release build. The model computes it on unbounded naturals.
- Statistics.EstimateLyapunov: `window_size + 100` is a `usize` sum. For a
  huge window it overflows, which panics in a debug build and wraps in a
  release build. The model computes it on unbounded naturals and returns
  None there.
- Physics.EulerStep: `IntegrateEuler` is a plain function. Its contract is
  stated as this lemma rather than as `ensures` on the function.
- Physics.Rk4Step: `IntegrateRk4` is a plain function. Its contract is
  stated as this lemma rather than as `ensures` on the function.
- Physics.StepReportsEnergyError: `Step` is a plain function. Its contract
  is stated as this lemma rather than as `ensures` on the function.
- Physics.IntegrateAdaptive: the step size the returned state was computed
  with, and the number of halvings that led to it, are ghost
  out-parameters. The source returns only the state and the next step
  size.
- The getters that return whole histories are not modelled separately.
  They are the record's fields.
- The check `i + window_size >= len` inside the Lyapunov loop never fires,
  because `i < len - window_size`. It is left out.
- `closest_idx > 0` is modelled as "a neighbour was found". Candidates
  start at index i + 10 > 0, so the two agree.

## Findings

| source | as written | input that shows it | evidently intended | confidence | as-written member | corrected member |
|---|---|---|---|---|---|---|
| src/physics.rs:320-330 | the Euler test asserts that one step from rest changes both angles, "due to gravity" | state (0.1, 0.2, 0, 0), dt = 0.001, default parameters: both velocities are 0, so θ1 + 0·dt = 0.1 and θ2 + 0·dt = 0.2 and the assertions fail | gravity sets the displaced pendulum moving: the first step changes the angular velocity, and the angles change from the step after | high, not executed | Physics.EulerAtRestKeepsAngles (instance: Physics.EulerAtRestExample) | Physics.EulerFromRestGainsVelocity |
