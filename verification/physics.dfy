/** The integrator: the Lagrangian equations of motion, the explicit Euler
    and classic Runge-Kutta-4 steps with angle renormalisation, the
    per-step energy-error metric, and the adaptive step-size controller. */
module Physics {
  import opened Numerics
  import opened Pendulum

  /** Rates of change of θ1, θ2, ω1, ω2. */
  datatype StateDerivative = StateDerivative(dtheta1: real, dtheta2: real, domega1: real, domega2: real)

  /** The zero state: both links hanging straight down, at rest. */
  const EQUILIBRIUM: PendulumState := PendulumState(0.0, 0.0, 0.0, 0.0)

  // ---------------------------------------------------------------------
  // Derivative algebra

  /** The derivative with no rate of change in any component. */
  const ZERO_DERIVATIVE: StateDerivative := StateDerivative(0.0, 0.0, 0.0, 0.0)

  /** Scales every rate by `scalar`; scaling by one changes nothing and
      scaling by zero gives the zero derivative. */
  function MulScalar(d: StateDerivative, scalar: real): (r: StateDerivative)
    ensures r.dtheta1 == d.dtheta1 * scalar && r.dtheta2 == d.dtheta2 * scalar
    ensures r.domega1 == d.domega1 * scalar && r.domega2 == d.domega2 * scalar
    ensures scalar == 1.0 ==> r == d
    ensures scalar == 0.0 ==> r == ZERO_DERIVATIVE
  {
    StateDerivative(d.dtheta1 * scalar, d.dtheta2 * scalar, d.domega1 * scalar, d.domega2 * scalar)
  }

  /** Adds the rates componentwise; the zero derivative is its identity. */
  function Add(a: StateDerivative, b: StateDerivative): (r: StateDerivative)
    ensures r.dtheta1 == a.dtheta1 + b.dtheta1 && r.dtheta2 == a.dtheta2 + b.dtheta2
    ensures r.domega1 == a.domega1 + b.domega1 && r.domega2 == a.domega2 + b.domega2
    ensures b == ZERO_DERIVATIVE ==> r == a
  {
    StateDerivative(a.dtheta1 + b.dtheta1, a.dtheta2 + b.dtheta2, a.domega1 + b.domega1, a.domega2 + b.domega2)
  }

  /** The state reached by following derivative d for time `scale`: each
      component moves by its rate times the time, so following for no time,
      or along the zero derivative, stays put. */
  function AddScaledDerivative(s: PendulumState, d: StateDerivative, scale: real): (r: PendulumState)
    ensures r.theta1 - s.theta1 == d.dtheta1 * scale && r.theta2 - s.theta2 == d.dtheta2 * scale
    ensures r.omega1 - s.omega1 == d.domega1 * scale && r.omega2 - s.omega2 == d.domega2 * scale
    ensures scale == 0.0 || d == ZERO_DERIVATIVE ==> r == s
  {
    PendulumState(
      s.theta1 + d.dtheta1 * scale,
      s.theta2 + d.dtheta2 * scale,
      s.omega1 + d.domega1 * scale,
      s.omega2 + d.domega2 * scale)
  }

  /** Derivatives form a vector space under Add and MulScalar: addition
      commutes, scaling distributes over it, and scalings compose. */
  lemma AddCommutes(a: StateDerivative, b: StateDerivative)
    ensures Add(a, b) == Add(b, a)
  {
  }

  lemma ScalingDistributes(a: StateDerivative, b: StateDerivative, x: real)
    ensures MulScalar(Add(a, b), x) == Add(MulScalar(a, x), MulScalar(b, x))
  {
    Distributes(Add(a, b).dtheta1, a.dtheta1, b.dtheta1, x);
    Distributes(Add(a, b).dtheta2, a.dtheta2, b.dtheta2, x);
    Distributes(Add(a, b).domega1, a.domega1, b.domega1, x);
    Distributes(Add(a, b).domega2, a.domega2, b.domega2, x);
  }

  lemma ScalingComposes(a: StateDerivative, x: real, y: real)
    ensures MulScalar(MulScalar(a, x), y) == MulScalar(a, x * y)
  {
    Associates(MulScalar(a, x).dtheta1, a.dtheta1, x, y);
    Associates(MulScalar(a, x).dtheta2, a.dtheta2, x, y);
    Associates(MulScalar(a, x).domega1, a.domega1, x, y);
    Associates(MulScalar(a, x).domega2, a.domega2, x, y);
  }

  lemma Distributes(w: real, u: real, v: real, x: real)
    requires w == u + v
    ensures w * x == u * x + v * x
  {
  }

  lemma Associates(w: real, u: real, x: real, y: real)
    requires w == u * x
    ensures w * y == u * (x * y)
  {
  }

  /** Following a sum of derivatives is following one after the other, and
      following any derivative for no time stays put. */
  lemma FollowingSums(s: PendulumState, a: StateDerivative, b: StateDerivative, x: real)
    ensures AddScaledDerivative(s, Add(a, b), x) == AddScaledDerivative(AddScaledDerivative(s, a, x), b, x)
    ensures AddScaledDerivative(s, a, 0.0) == s
  {
    hide Add, AddScaledDerivative;
    var sum := Add(a, b);
    var mid := AddScaledDerivative(s, a, x);
    var direct := AddScaledDerivative(s, sum, x);
    var stepped := AddScaledDerivative(mid, b, x);
    StepSum(s.theta1, a.dtheta1, b.dtheta1, sum.dtheta1, x);
    StepSum(s.theta2, a.dtheta2, b.dtheta2, sum.dtheta2, x);
    StepSum(s.omega1, a.domega1, b.domega1, sum.domega1, x);
    StepSum(s.omega2, a.domega2, b.domega2, sum.domega2, x);
    assert direct.theta1 == stepped.theta1 && direct.theta2 == stepped.theta2;
    assert direct.omega1 == stepped.omega1 && direct.omega2 == stepped.omega2;
  }

  lemma StepSum(y: real, u: real, v: real, w: real, x: real)
    requires w == u + v
    ensures y + w * x == (y + u * x) + v * x
  {
    Distributes(w, u, v, x);
  }

  // ---------------------------------------------------------------------
  // The engine's configuration

  /** The engine holds nothing but its time step, so every operation below
      takes that step `dt` directly in place of the engine. */
  const MIN_TIME_STEP: real := 0.000001

  /** The default engine steps by one millisecond. */
  const DEFAULT_TIME_STEP: real := 0.001

  /** The step of the default engine: one millisecond, above the floor, so
      `set_dt` would keep it unchanged. */
  function DefaultDt(): (r: real)
    ensures MIN_TIME_STEP < r && SetDt(r) == r
  {
    DEFAULT_TIME_STEP
  }

  /** The step `set_dt` stores: max(dt, 1e-6). A step below the floor is
      raised to it and any other step is kept exactly. (Building an engine
      directly does not clamp.) */
  function SetDt(dt: real): (r: real)
    ensures MIN_TIME_STEP <= r
    ensures MIN_TIME_STEP <= dt ==> r == dt
    ensures dt < MIN_TIME_STEP ==> r == MIN_TIME_STEP
  {
    Max(dt, MIN_TIME_STEP)
  }

  // ---------------------------------------------------------------------
  // Equations of motion

  /** The entries of the mass matrix and the right-hand sides of the two
      Lagrange equations (Coriolis/centrifugal, gravity and damping terms). */
  datatype LagrangeTerms = LagrangeTerms(m11: real, m12: real, m22: real, rhs1: real, rhs2: real)

  function LagrangeTermsAt(s: PendulumState, p: PendulumParams, m: Fns): LagrangeTerms {
    var deltaTheta := s.theta1 - s.theta2;
    var cosDelta := m.cos(deltaTheta);
    var sinDelta := m.sin(deltaTheta);
    var m11 := (p.m1 + p.m2) * p.l1 * p.l1;
    var m12 := p.m2 * p.l1 * p.l2 * cosDelta;
    var m22 := p.m2 * p.l2 * p.l2;
    var c1 := -p.m2 * p.l1 * p.l2 * s.omega2 * s.omega2 * sinDelta
              - 2.0 * p.m2 * p.l1 * p.l2 * s.omega2 * s.omega1 * sinDelta;
    var c2 := p.m2 * p.l1 * p.l2 * s.omega1 * s.omega1 * sinDelta;
    var g1 := -(p.m1 + p.m2) * p.g * p.l1 * m.sin(s.theta1);
    var g2 := -p.m2 * p.g * p.l2 * m.sin(s.theta2);
    var d1 := -p.damping * s.omega1;
    var d2 := -p.damping * s.omega2;
    LagrangeTerms(m11, m12, m22, c1 + g1 + d1, c2 + g2 + d2)
  }

  const DET_FLOOR: real := 0.0000000001

  /** The singularity guard: a determinant smaller than 1e-10 in magnitude
      is replaced by 1e-10 carrying its sign (zero counting as positive).
      The result is never zero, so the division after it is defined. */
  function GuardDeterminant(det: real): (r: real)
    ensures DET_FLOOR <= Abs(r)
    ensures 0.0 < r <==> 0.0 <= det
    ensures DET_FLOOR <= Abs(det) ==> r == det
    ensures Abs(det) < DET_FLOOR ==> Abs(r) == DET_FLOOR
  {
    if Abs(det) < DET_FLOOR then DET_FLOOR * Signum(det) else det
  }

  /** The determinant of the symmetric mass matrix. */
  function Determinant(t: LagrangeTerms): real {
    t.m11 * t.m22 - t.m12 * t.m12
  }

  /** (a1, a2) solves the mass-matrix system, wherever its determinant is
      large enough not to be clamped. */
  predicate SolvesSystem(t: LagrangeTerms, a1: real, a2: real) {
    DET_FLOOR <= Abs(Determinant(t)) ==>
      && t.m11 * a1 + t.m12 * a2 == t.rhs1
      && t.m12 * a1 + t.m22 * a2 == t.rhs2
  }

  /** (a1, a2) solves the mass-matrix system with both right-hand sides
      scaled by det / guarded det: 1 when the guard leaves the determinant
      alone, and det / ±1e-10 (of magnitude below one) when it clamps it. */
  predicate SolvesGuardedSystem(t: LagrangeTerms, a1: real, a2: real) {
    var q := Determinant(t) / GuardDeterminant(Determinant(t));
    && t.m11 * a1 + t.m12 * a2 == q * t.rhs1
    && t.m12 * a1 + t.m22 * a2 == q * t.rhs2
  }

  /** Solves the mass-matrix system for the two angular accelerations with
      the guarded determinant (Cramer's rule with det replaced by its guarded
      value). Whenever the determinant is not clamped the result is the exact
      solution; when it is, the result solves the system whose right-hand
      sides are scaled by det / guarded det. */
  function Accelerations(t: LagrangeTerms): (a: (real, real))
    ensures SolvesGuardedSystem(t, a.0, a.1)
    ensures SolvesSystem(t, a.0, a.1)
  {
    CramerSolves(t);
    CramerSolution(t, GuardDeterminant(Determinant(t)))
  }

  /** Cramer's rule for the mass-matrix system with the determinant
      replaced by g. */
  function CramerSolution(t: LagrangeTerms, g: real): (real, real)
    requires g != 0.0
  {
    ((t.m22 * t.rhs1 - t.m12 * t.rhs2) / g, (t.m11 * t.rhs2 - t.m12 * t.rhs1) / g)
  }

  lemma CramerSolves(t: LagrangeTerms)
    ensures var a := CramerSolution(t, GuardDeterminant(Determinant(t)));
            SolvesGuardedSystem(t, a.0, a.1) && SolvesSystem(t, a.0, a.1)
  {
    hide GuardDeterminant, Abs;
    var det := Determinant(t);
    var g := GuardDeterminant(det);
    var a := CramerSolution(t, g);
    Cramer(t.m11, t.m12, t.m22, t.rhs1, t.rhs2, g);
    assert SolvesGuardedSystem(t, a.0, a.1);
    if DET_FLOOR <= Abs(det) {
      DivideBySelf(g);
    }
  }

  lemma DivideBySelf(x: real)
    requires x != 0.0
    ensures x / x == 1.0
  {
  }

  /** The derivative of the state: the angles change at the angular
      velocities, and the angular accelerations solve the 2×2 mass-matrix
      system whenever its determinant is not clamped. */
  function ComputeDerivatives(s: PendulumState, p: PendulumParams, m: Fns): (d: StateDerivative)
    ensures d.dtheta1 == s.omega1 && d.dtheta2 == s.omega2
    ensures SolvesSystem(LagrangeTermsAt(s, p, m), d.domega1, d.domega2)
    ensures SolvesGuardedSystem(LagrangeTermsAt(s, p, m), d.domega1, d.domega2)
  {
    var alpha := Accelerations(LagrangeTermsAt(s, p, m));
    StateDerivative(s.omega1, s.omega2, alpha.0, alpha.1)
  }

  /** Cramer's rule for the symmetric system [a b; b c]·(x, y) = (r1, r2)
      with the determinant a·c − b² replaced by any non-zero g: the
      solution it gives solves the system with right-hand sides scaled by
      (a·c − b²) / g, and solves it exactly when g is the determinant. */
  lemma Cramer(a: real, b: real, c: real, r1: real, r2: real, g: real)
    requires g != 0.0
    ensures var q := (a * c - b * b) / g;
            && a * ((c * r1 - b * r2) / g) + b * ((a * r2 - b * r1) / g) == q * r1
            && b * ((c * r1 - b * r2) / g) + c * ((a * r2 - b * r1) / g) == q * r2
  {
    var det := a * c - b * b;
    var q := det / g;
    var x := (c * r1 - b * r2) / g;
    var y := (a * r2 - b * r1) / g;
    assert x * g == c * r1 - b * r2;
    assert y * g == a * r2 - b * r1;
    assert q * g == det;
    assert (a * x + b * y) * g == a * (x * g) + b * (y * g);
    assert (b * x + c * y) * g == b * (x * g) + c * (y * g);
    assert (a * x + b * y) * g == det * r1;
    assert (b * x + c * y) * g == det * r2;
    assert (q * r1) * g == (q * g) * r1;
    assert (q * r2) * g == (q * g) * r2;
    CancelNonZero(a * x + b * y, q * r1, g);
    CancelNonZero(b * x + c * y, q * r2, g);
  }

  lemma CancelNonZero(u: real, v: real, k: real)
    requires k != 0.0 && u * k == v * k
    ensures u == v
  {
    assert (u - v) * k == 0.0;
  }

  /** Hanging straight down at rest there is no net torque: every component
      of the derivative is zero, whatever the parameters. */
  lemma EquilibriumHasZeroDerivative(p: PendulumParams, m: Fns)
    requires TrigAtZero(m)
    ensures ComputeDerivatives(EQUILIBRIUM, p, m) == ZERO_DERIVATIVE
  {
    var t := LagrangeTermsAt(EQUILIBRIUM, p, m);
    assert t.rhs1 == 0.0 && t.rhs2 == 0.0;
  }

  /** a has the sign opposite to x (and is zero with it). */
  predicate OpposesSign(a: real, x: real) {
    && (0.0 < x ==> a < 0.0)
    && (x < 0.0 ==> 0.0 < a)
    && (x == 0.0 ==> a == 0.0)
  }

  /** Gravity restores the upper link toward the vertical: with valid
      parameters, the lower link vertical and both links at rest, the
      angular acceleration of the upper link has the sign opposite to
      sin θ1. The mass-matrix determinant is positive here because m1 > 0
      and cos² ≤ 1, so the guard keeps its sign. */
  lemma RestoringTorque(theta1: real, p: PendulumParams, m: Fns)
    requires ValidParams(p) && TrigAtZero(m) && CosSquaredAtMostOne(m)
    ensures OpposesSign(ComputeDerivatives(AtRest(theta1, 0.0), p, m).domega1, m.sin(theta1))
  {
    var s := AtRest(theta1, 0.0);
    var t := LagrangeTermsAt(s, p, m);
    RestingTerms(theta1, p, m);
    var k := (p.m1 + p.m2) * p.g * p.l1;
    PositiveProduct3(p.m1 + p.m2, p.g, p.l1);
    PositiveProduct3(p.m2, p.l2, p.l2);
    PositiveDeterminant(t.m11, t.m12, t.m22, p.m1, p.m2, p.l1, p.l2, m.cos(theta1));
    FirstAccelerationOpposes(t, k, m.sin(theta1));
  }

  /** With no right-hand side for the lower link and a positive determinant,
      the upper link's acceleration has the sign of its right-hand side. */
  lemma FirstAccelerationOpposes(t: LagrangeTerms, k: real, sn: real)
    requires t.rhs2 == 0.0 && t.rhs1 == -k * sn
    requires 0.0 < t.m22 && 0.0 < k && 0.0 < Determinant(t)
    ensures OpposesSign(Accelerations(t).0, sn)
  {
    var det := GuardDeterminant(Determinant(t));
    SignOfFirstAcceleration(t.m12, t.m22, t.rhs1, t.rhs2, det, k, sn);
  }

  /** The Lagrange terms of a state at rest with the lower link vertical. */
  lemma RestingTerms(theta1: real, p: PendulumParams, m: Fns)
    requires TrigAtZero(m)
    ensures LagrangeTermsAt(AtRest(theta1, 0.0), p, m).m11 == (p.m1 + p.m2) * p.l1 * p.l1
    ensures LagrangeTermsAt(AtRest(theta1, 0.0), p, m).m12 == p.m2 * p.l1 * p.l2 * m.cos(theta1)
    ensures LagrangeTermsAt(AtRest(theta1, 0.0), p, m).m22 == p.m2 * p.l2 * p.l2
    ensures LagrangeTermsAt(AtRest(theta1, 0.0), p, m).rhs1 == -((p.m1 + p.m2) * p.g * p.l1) * m.sin(theta1)
    ensures LagrangeTermsAt(AtRest(theta1, 0.0), p, m).rhs2 == 0.0
  {
    var s := AtRest(theta1, 0.0);
    assert s.theta1 - s.theta2 == theta1;
  }

  lemma SignOfFirstAcceleration(m12: real, m22: real, rhs1: real, rhs2: real, det: real, k: real, sn: real)
    requires rhs2 == 0.0 && rhs1 == -k * sn
    requires 0.0 < m22 && 0.0 < k && 0.0 < det
    ensures OpposesSign((m22 * rhs1 - m12 * rhs2) / det, sn)
  {
    var num := m22 * rhs1 - m12 * rhs2;
    assert num == -(m22 * k) * sn;
    PositiveProduct(m22, k);
    if 0.0 < sn {
      PositiveProduct(m22 * k, sn);
    } else if sn < 0.0 {
      PositiveProduct(m22 * k, -sn);
    }
  }

  lemma PositiveProduct3(a: real, b: real, c: real)
    requires 0.0 < a && 0.0 < b && 0.0 < c
    ensures 0.0 < a * b * c
  {
    PositiveProduct(a, b);
    PositiveProduct(a * b, c);
  }

  /** The mass matrix of a valid pendulum is positive definite whenever
      cos² ≤ 1: its determinant is l1²·l2²·m2·(m1 + m2·(1 - cos²)). */
  lemma PositiveDeterminant(m11: real, m12: real, m22: real, m1: real, m2: real, l1: real, l2: real, c: real)
    requires m11 == (m1 + m2) * l1 * l1 && m12 == m2 * l1 * l2 * c && m22 == m2 * l2 * l2
    requires 0.0 < m1 && 0.0 < m2 && 0.0 < l1 && 0.0 < l2 && c * c <= 1.0
    ensures 0.0 < m11 * m22 - m12 * m12
  {
    var q := l1 * l2;
    PositiveProduct(l1, l2);
    PositiveProduct(m2, q);
    PositiveProduct(m2 * q, q);
    var a := m2 * q * q;
    var f := m1 + m2 * (1.0 - c * c);
    NonNegativeProduct(m2, 1.0 - c * c);
    PositiveProduct(a, f);
    assert m11 * m22 - m12 * m12 == a * f;
  }

  // ---------------------------------------------------------------------
  // Integrators

  /** The angle theta after turning at `rate` for time dt, brought back
      into [-π, π]. */
  function AdvanceAngle(theta: real, rate: real, dt: real): (r: real)
    ensures -PI <= r <= PI
  {
    NormalizeAngle(theta + rate * dt)
  }

  /** An angle computed as theta + rate·dt normalises to AdvanceAngle. */
  lemma Advanced(x: real, theta: real, rate: real, dt: real)
    requires x - theta == rate * dt
    ensures NormalizeAngle(x) == AdvanceAngle(theta, rate, dt)
  {
  }

  /** r is s followed along derivative d for time dt, with the angles
      renormalised. */
  predicate EulerAdvanced(s: PendulumState, d: StateDerivative, dt: real, r: PendulumState) {
    && r.theta1 == AdvanceAngle(s.theta1, d.dtheta1, dt)
    && r.theta2 == AdvanceAngle(s.theta2, d.dtheta2, dt)
    && r.omega1 == s.omega1 + d.domega1 * dt
    && r.omega2 == s.omega2 + d.domega2 * dt
  }

  /** Following derivative d for time dt, then renormalising the angles. */
  function EulerUpdate(s: PendulumState, d: StateDerivative, dt: real): PendulumState {
    NormalizeAngles(AddScaledDerivative(s, d, dt))
  }

  lemma EulerUpdateAdvances(s: PendulumState, d: StateDerivative, dt: real)
    ensures EulerAdvanced(s, d, dt, EulerUpdate(s, d, dt))
  {
    hide NormalizeAngle;
    var moved := AddScaledDerivative(s, d, dt);
    Advanced(moved.theta1, s.theta1, d.dtheta1, dt);
    Advanced(moved.theta2, s.theta2, d.dtheta2, dt);
  }

  /** One explicit Euler step along the derivative at s, then angle
      renormalisation. */
  function IntegrateEuler(dt: real, s: PendulumState, p: PendulumParams, m: Fns): PendulumState {
    EulerUpdate(s, ComputeDerivatives(s, p, m), dt)
  }

  /** Because the angle rates are the angular velocities, an Euler step
      advances each angle by ω·dt before bringing it back into [-π, π];
      each angular velocity advances by its acceleration times dt. */
  lemma EulerStep(dt: real, s: PendulumState, p: PendulumParams, m: Fns)
    ensures IntegrateEuler(dt, s, p, m).theta1 == AdvanceAngle(s.theta1, s.omega1, dt)
    ensures IntegrateEuler(dt, s, p, m).theta2 == AdvanceAngle(s.theta2, s.omega2, dt)
    ensures IntegrateEuler(dt, s, p, m).omega1 == s.omega1 + ComputeDerivatives(s, p, m).domega1 * dt
    ensures IntegrateEuler(dt, s, p, m).omega2 == s.omega2 + ComputeDerivatives(s, p, m).domega2 * dt
  {
    hide ComputeDerivatives, NormalizeAngle, EulerUpdate;
    EulerUpdateAdvances(s, ComputeDerivatives(s, p, m), dt);
  }

  /** An Euler step from a state at rest leaves both angles where they
      were: the angles advance by ω·dt = 0, and an angle already in
      [−π, π] normalises to itself. */
  lemma EulerAtRestKeepsAngles(dt: real, theta1: real, theta2: real, p: PendulumParams, m: Fns)
    requires -PI <= theta1 <= PI && -PI <= theta2 <= PI
    ensures IntegrateEuler(dt, AtRest(theta1, theta2), p, m).theta1 == theta1
    ensures IntegrateEuler(dt, AtRest(theta1, theta2), p, m).theta2 == theta2
  {
    hide ComputeDerivatives, IntegrateEuler;
    EulerStep(dt, AtRest(theta1, theta2), p, m);
  }

  /** In particular one millisecond's Euler step from (0.1, 0.2) at rest,
      with the default parameters, changes neither angle. */
  lemma EulerAtRestExample(m: Fns)
    ensures IntegrateEuler(0.001, PendulumState(0.1, 0.2, 0.0, 0.0), DefaultParams(), m).theta1 == 0.1
    ensures IntegrateEuler(0.001, PendulumState(0.1, 0.2, 0.0, 0.0), DefaultParams(), m).theta2 == 0.2
  {
    hide ComputeDerivatives, IntegrateEuler;
    EulerAtRestKeepsAngles(0.001, 0.1, 0.2, DefaultParams(), m);
  }

  /** What an Euler step from a displaced rest state does change: gravity
      gives the upper link a velocity, of the sign opposite to sin θ1, for
      any non-zero step. */
  lemma EulerFromRestGainsVelocity(dt: real, theta1: real, p: PendulumParams, m: Fns)
    requires ValidParams(p) && TrigAtZero(m) && CosSquaredAtMostOne(m)
    requires m.sin(theta1) != 0.0 && dt != 0.0
    ensures IntegrateEuler(dt, AtRest(theta1, 0.0), p, m).omega1 != 0.0
    ensures 0.0 < dt ==> OpposesSign(IntegrateEuler(dt, AtRest(theta1, 0.0), p, m).omega1, m.sin(theta1))
  {
    hide ComputeDerivatives, IntegrateEuler;
    var s := AtRest(theta1, 0.0);
    EulerStep(dt, s, p, m);
    RestoringTorque(theta1, p, m);
    var a := ComputeDerivatives(s, p, m).domega1;
    assert a != 0.0;
    if 0.0 < dt {
      if 0.0 < a {
        PositiveProduct(a, dt);
      } else {
        PositiveProduct(-a, dt);
      }
    } else {
      if 0.0 < a {
        PositiveProduct(a, -dt);
      } else {
        PositiveProduct(-a, -dt);
      }
    }
  }

  /** The slope at the state reached by following k for time h. Its angle
      rates are the velocities of that state. */
  function Stage(s: PendulumState, k: StateDerivative, h: real, p: PendulumParams, m: Fns): (r: StateDerivative)
    ensures r.dtheta1 == s.omega1 + k.domega1 * h && r.dtheta2 == s.omega2 + k.domega2 * h
  {
    ComputeDerivatives(AddScaledDerivative(s, k, h), p, m)
  }

  /** The RK4 slope of stage i (1 to 4): k1 at the state itself, and each
      later slope at the state moved along the previous slope for the
      stage's time offset (always starting from the original state). */
  function Slope(i: nat, dt: real, s: PendulumState, p: PendulumParams, m: Fns): (k: StateDerivative)
    requires 1 <= i <= 4
    ensures i == 1 ==> k.dtheta1 == s.omega1 && k.dtheta2 == s.omega2
    decreases i
  {
    if i == 1 then ComputeDerivatives(s, p, m)
    else if i == 4 then Stage(s, Slope(3, dt, s, p, m), dt, p, m)
    else Stage(s, Slope(i - 1, dt, s, p, m), dt / 2.0, p, m)
  }

  /** The four RK4 slopes. */
  datatype Rk4Slopes = Rk4Slopes(k1: StateDerivative, k2: StateDerivative, k3: StateDerivative, k4: StateDerivative)

  /** The angle rates of the four slopes are the velocities of the states
      they are evaluated at: the state itself, the state moved by dt/2 along
      k1, by dt/2 along k2, and by dt along k3. */
  predicate StagesFollow(s: PendulumState, k: Rk4Slopes, dt: real) {
    && k.k1.dtheta1 == s.omega1 && k.k1.dtheta2 == s.omega2
    && k.k2.dtheta1 == s.omega1 + k.k1.domega1 * (dt / 2.0)
    && k.k2.dtheta2 == s.omega2 + k.k1.domega2 * (dt / 2.0)
    && k.k3.dtheta1 == s.omega1 + k.k2.domega1 * (dt / 2.0)
    && k.k3.dtheta2 == s.omega2 + k.k2.domega2 * (dt / 2.0)
    && k.k4.dtheta1 == s.omega1 + k.k3.domega1 * dt
    && k.k4.dtheta2 == s.omega2 + k.k3.domega2 * dt
  }

  function Rk4SlopesAt(dt: real, s: PendulumState, p: PendulumParams, m: Fns): Rk4Slopes {
    Rk4Slopes(Slope(1, dt, s, p, m), Slope(2, dt, s, p, m), Slope(3, dt, s, p, m), Slope(4, dt, s, p, m))
  }

  /** k1 + 2·k2 + 2·k3 + k4, built with the derivative algebra. */
  function Rk4Combination(k: Rk4Slopes): (r: StateDerivative)
    ensures r.dtheta1 == k.k1.dtheta1 + 2.0 * k.k2.dtheta1 + 2.0 * k.k3.dtheta1 + k.k4.dtheta1
    ensures r.dtheta2 == k.k1.dtheta2 + 2.0 * k.k2.dtheta2 + 2.0 * k.k3.dtheta2 + k.k4.dtheta2
    ensures r.domega1 == k.k1.domega1 + 2.0 * k.k2.domega1 + 2.0 * k.k3.domega1 + k.k4.domega1
    ensures r.domega2 == k.k1.domega2 + 2.0 * k.k2.domega2 + 2.0 * k.k3.domega2 + k.k4.domega2
  {
    Add(Add(Add(k.k1, MulScalar(k.k2, 2.0)), MulScalar(k.k3, 2.0)), k.k4)
  }

  /** The RK4 weighting (a1 + 2·a2 + 2·a3 + a4) / 6 of four stage values:
      a weighted average, so it lies between the least and the greatest of
      them. Its `6·r` ensures is proof plumbing that keeps the weights
      linear for the solver; the averaging fact is `WeightedMeanBetween`. */
  function WeightedMean(a1: real, a2: real, a3: real, a4: real): (r: real)
    ensures 6.0 * r == a1 + 2.0 * a2 + 2.0 * a3 + a4
  {
    (a1 + 2.0 * a2 + 2.0 * a3 + a4) / 6.0
  }

  /** The weighted means of the four slopes' rates, as one derivative.
      Its ensures are proof plumbing; what it means is `MeanSlopeAverages`. */
  function MeanSlope(k: Rk4Slopes): (r: StateDerivative)
    ensures 6.0 * r.dtheta1 == k.k1.dtheta1 + 2.0 * k.k2.dtheta1 + 2.0 * k.k3.dtheta1 + k.k4.dtheta1
    ensures 6.0 * r.dtheta2 == k.k1.dtheta2 + 2.0 * k.k2.dtheta2 + 2.0 * k.k3.dtheta2 + k.k4.dtheta2
    ensures 6.0 * r.domega1 == k.k1.domega1 + 2.0 * k.k2.domega1 + 2.0 * k.k3.domega1 + k.k4.domega1
    ensures 6.0 * r.domega2 == k.k1.domega2 + 2.0 * k.k2.domega2 + 2.0 * k.k3.domega2 + k.k4.domega2
  {
    StateDerivative(
      WeightedMean(k.k1.dtheta1, k.k2.dtheta1, k.k3.dtheta1, k.k4.dtheta1),
      WeightedMean(k.k1.dtheta2, k.k2.dtheta2, k.k3.dtheta2, k.k4.dtheta2),
      WeightedMean(k.k1.domega1, k.k2.domega1, k.k3.domega1, k.k4.domega1),
      WeightedMean(k.k1.domega2, k.k2.domega2, k.k3.domega2, k.k4.domega2))
  }

  /** The mean slope is one sixth of the combined slope k1 + 2·k2 + 2·k3 +
      k4 built with the derivative algebra; it is an average: each of its
      components lies between the least and the greatest of the four
      slopes' components, and four equal slopes average to themselves. */
  lemma MeanSlopeAverages(k: Rk4Slopes)
    ensures MeanSlope(k) == MulScalar(Rk4Combination(k), 1.0 / 6.0)
    ensures Min(Min(k.k1.domega1, k.k2.domega1), Min(k.k3.domega1, k.k4.domega1)) <= MeanSlope(k).domega1
            <= Max(Max(k.k1.domega1, k.k2.domega1), Max(k.k3.domega1, k.k4.domega1))
    ensures Min(Min(k.k1.domega2, k.k2.domega2), Min(k.k3.domega2, k.k4.domega2)) <= MeanSlope(k).domega2
            <= Max(Max(k.k1.domega2, k.k2.domega2), Max(k.k3.domega2, k.k4.domega2))
    ensures Min(Min(k.k1.dtheta1, k.k2.dtheta1), Min(k.k3.dtheta1, k.k4.dtheta1)) <= MeanSlope(k).dtheta1
            <= Max(Max(k.k1.dtheta1, k.k2.dtheta1), Max(k.k3.dtheta1, k.k4.dtheta1))
    ensures Min(Min(k.k1.dtheta2, k.k2.dtheta2), Min(k.k3.dtheta2, k.k4.dtheta2)) <= MeanSlope(k).dtheta2
            <= Max(Max(k.k1.dtheta2, k.k2.dtheta2), Max(k.k3.dtheta2, k.k4.dtheta2))
    ensures k.k1 == k.k2 == k.k3 == k.k4 ==> MeanSlope(k) == k.k1
  {
    var mean := MeanSlope(k);
    var scaled := MulScalar(Rk4Combination(k), 1.0 / 6.0);
    assert mean.dtheta1 == scaled.dtheta1 && mean.dtheta2 == scaled.dtheta2;
    assert mean.domega1 == scaled.domega1 && mean.domega2 == scaled.domega2;
    WeightedMeanBetween(k.k1.dtheta1, k.k2.dtheta1, k.k3.dtheta1, k.k4.dtheta1);
    WeightedMeanBetween(k.k1.dtheta2, k.k2.dtheta2, k.k3.dtheta2, k.k4.dtheta2);
    WeightedMeanBetween(k.k1.domega1, k.k2.domega1, k.k3.domega1, k.k4.domega1);
    WeightedMeanBetween(k.k1.domega2, k.k2.domega2, k.k3.domega2, k.k4.domega2);
  }

  lemma WeightedMeanBetween(a1: real, a2: real, a3: real, a4: real)
    ensures Min(Min(a1, a2), Min(a3, a4)) <= WeightedMean(a1, a2, a3, a4) <= Max(Max(a1, a2), Max(a3, a4))
  {
    var lo := Min(Min(a1, a2), Min(a3, a4));
    var hi := Max(Max(a1, a2), Max(a3, a4));
    assert lo <= a1 && lo <= a2 && lo <= a3 && lo <= a4;
    assert a1 <= hi && a2 <= hi && a3 <= hi && a4 <= hi;
    assert 6.0 * lo <= 6.0 * WeightedMean(a1, a2, a3, a4) <= 6.0 * hi;
  }

  /** The RK4 update y + dt/6·(k1 + 2k2 + 2k3 + k4) followed by angle
      renormalisation. */
  function Rk4Update(s: PendulumState, k: Rk4Slopes, dt: real): PendulumState {
    NormalizeAngles(AddScaledDerivative(s, Rk4Combination(k), dt / 6.0))
  }

  /** The RK4 update is an Euler update along the weighted mean slope. */
  lemma Rk4UpdateAdvances(s: PendulumState, k: Rk4Slopes, dt: real)
    ensures EulerAdvanced(s, MeanSlope(k), dt, Rk4Update(s, k, dt))
  {
    hide NormalizeAngle;
    var combined := Rk4Combination(k);
    var mean := MeanSlope(k);
    var moved := AddScaledDerivative(s, combined, dt / 6.0);
    ScaleMean(moved.theta1, s.theta1, combined.dtheta1, mean.dtheta1, dt);
    ScaleMean(moved.theta2, s.theta2, combined.dtheta2, mean.dtheta2, dt);
    ScaleMean(moved.omega1, s.omega1, combined.domega1, mean.domega1, dt);
    ScaleMean(moved.omega2, s.omega2, combined.domega2, mean.domega2, dt);
    Advanced(moved.theta1, s.theta1, mean.dtheta1, dt);
    Advanced(moved.theta2, s.theta2, mean.dtheta2, dt);
  }

  lemma ScaleMean(y: real, x: real, c: real, mean: real, dt: real)
    requires y - x == c * (dt / 6.0) && c == 6.0 * mean
    ensures y - x == mean * dt
  {
  }

  /** One classic RK4 step with the engine's dt: the update above applied to
      the four slopes at the state. */
  function IntegrateRk4(dt: real, s: PendulumState, p: PendulumParams, m: Fns): PendulumState {
    Rk4Update(s, Rk4SlopesAt(dt, s, p, m), dt)
  }

  /** An RK4 step advances every component by dt times the weighted mean
      of the four slopes' rates for it; the mean angle rate is
      ω + dt/6·(α1 + α2 + α3), αi being the angular acceleration of slope
      i, so the fourth slope's acceleration does not reach the angles. */
  lemma Rk4Step(dt: real, s: PendulumState, p: PendulumParams, m: Fns)
    ensures EulerAdvanced(s, MeanSlope(Rk4SlopesAt(dt, s, p, m)), dt, IntegrateRk4(dt, s, p, m))
    ensures MeanSlope(Rk4SlopesAt(dt, s, p, m)).dtheta1
            == s.omega1 + dt / 6.0 * (Slope(1, dt, s, p, m).domega1 + Slope(2, dt, s, p, m).domega1 + Slope(3, dt, s, p, m).domega1)
    ensures MeanSlope(Rk4SlopesAt(dt, s, p, m)).dtheta2
            == s.omega2 + dt / 6.0 * (Slope(1, dt, s, p, m).domega2 + Slope(2, dt, s, p, m).domega2 + Slope(3, dt, s, p, m).domega2)
  {
    hide ComputeDerivatives, NormalizeAngle, Rk4Update, Slope;
    var k := Rk4SlopesAt(dt, s, p, m);
    Rk4UpdateAdvances(s, k, dt);
    Rk4StageRates(dt, s, p, m);
    Rk4AngleRates(s, k, dt);
  }

  /** The slopes RK4 computes follow the stages: k1 is the derivative at
      the state, and k2, k3, k4 are the derivatives at the state moved along
      k1 for dt/2, along k2 for dt/2 and along k3 for dt. Their angle rates
      are therefore the velocities of those moved states. */
  lemma Rk4SlopesFollowStages(dt: real, s: PendulumState, p: PendulumParams, m: Fns)
    ensures Rk4SlopesAt(dt, s, p, m).k1 == ComputeDerivatives(s, p, m)
    ensures Rk4SlopesAt(dt, s, p, m).k2 == Stage(s, Rk4SlopesAt(dt, s, p, m).k1, dt / 2.0, p, m)
    ensures Rk4SlopesAt(dt, s, p, m).k3 == Stage(s, Rk4SlopesAt(dt, s, p, m).k2, dt / 2.0, p, m)
    ensures Rk4SlopesAt(dt, s, p, m).k4 == Stage(s, Rk4SlopesAt(dt, s, p, m).k3, dt, p, m)
  {
    hide ComputeDerivatives, AddScaledDerivative, Stage, Slope;
    FirstSlope(dt, s, p, m);
    SlopeIsStage(2, dt, s, p, m);
    SlopeIsStage(3, dt, s, p, m);
    SlopeIsStage(4, dt, s, p, m);
  }

  /** Hence the RK4 slopes' angle rates are the velocities of the states
      they are evaluated at. */
  lemma Rk4StageRates(dt: real, s: PendulumState, p: PendulumParams, m: Fns)
    ensures StagesFollow(s, Rk4SlopesAt(dt, s, p, m), dt)
  {
    hide ComputeDerivatives, AddScaledDerivative, Slope;
    SlopeRates(2, dt, s, p, m);
    SlopeRates(3, dt, s, p, m);
    SlopeRates(4, dt, s, p, m);
  }

  /** The time offset of stage i: dt/2 for the middle stages, dt for the
      last. */
  function StageOffset(i: nat, dt: real): real {
    if i == 4 then dt else dt / 2.0
  }

  /** Slope i's angle rates are the velocities of the state moved along
      slope i - 1 for the stage's offset. */
  lemma SlopeRates(i: nat, dt: real, s: PendulumState, p: PendulumParams, m: Fns)
    requires 2 <= i <= 4
    ensures Slope(i, dt, s, p, m).dtheta1 == s.omega1 + Slope(i - 1, dt, s, p, m).domega1 * StageOffset(i, dt)
    ensures Slope(i, dt, s, p, m).dtheta2 == s.omega2 + Slope(i - 1, dt, s, p, m).domega2 * StageOffset(i, dt)
  {
    hide ComputeDerivatives, AddScaledDerivative, Slope;
    SlopeIsStage(i, dt, s, p, m);
  }

  lemma FirstSlope(dt: real, s: PendulumState, p: PendulumParams, m: Fns)
    ensures Slope(1, dt, s, p, m) == ComputeDerivatives(s, p, m)
  {
    hide ComputeDerivatives;
  }

  lemma SlopeIsStage(i: nat, dt: real, s: PendulumState, p: PendulumParams, m: Fns)
    requires 2 <= i <= 4
    ensures Slope(i, dt, s, p, m) == Stage(s, Slope(i - 1, dt, s, p, m), StageOffset(i, dt), p, m)
  {
    hide ComputeDerivatives, AddScaledDerivative, Stage;
  }

  /** Because the stage angle rates are the stage velocities, the mean
      angle rate of an RK4 step is ω + dt/6·(α1 + α2 + α3), αi being the
      angular acceleration of slope i: the fourth slope's acceleration does
      not reach the angles. */
  lemma Rk4AngleRates(s: PendulumState, k: Rk4Slopes, dt: real)
    requires StagesFollow(s, k, dt)
    ensures MeanSlope(k).dtheta1 == s.omega1 + dt / 6.0 * (k.k1.domega1 + k.k2.domega1 + k.k3.domega1)
    ensures MeanSlope(k).dtheta2 == s.omega2 + dt / 6.0 * (k.k1.domega2 + k.k2.domega2 + k.k3.domega2)
  {
    StageAngleRate(s.omega1, k.k1.domega1, k.k2.domega1, k.k3.domega1, dt, MeanSlope(k).dtheta1);
    StageAngleRate(s.omega2, k.k1.domega2, k.k2.domega2, k.k3.domega2, dt, MeanSlope(k).dtheta2);
  }

  lemma StageAngleRate(w: real, a1: real, a2: real, a3: real, dt: real, mean: real)
    requires 6.0 * mean == w + 2.0 * (w + a1 * (dt / 2.0)) + 2.0 * (w + a2 * (dt / 2.0)) + (w + a3 * dt)
    ensures mean == w + dt / 6.0 * (a1 + a2 + a3)
  {
  }

  /** If all four slopes coincide, the RK4 update is the Euler update. */
  lemma Rk4ConsistentWithEuler(s: PendulumState, k: StateDerivative, dt: real)
    ensures Rk4Update(s, Rk4Slopes(k, k, k, k), dt) == EulerUpdate(s, k, dt)
  {
    hide NormalizeAngle;
    assert MeanSlope(Rk4Slopes(k, k, k, k)) == k;
    Rk4UpdateAdvances(s, Rk4Slopes(k, k, k, k), dt);
    EulerUpdateAdvances(s, k, dt);
  }

  /** The equilibrium is a fixed point of both integrators, for any step. */
  lemma EquilibriumIsFixedPoint(dt: real, p: PendulumParams, m: Fns)
    requires TrigAtZero(m)
    ensures IntegrateEuler(dt, EQUILIBRIUM, p, m) == EQUILIBRIUM
    ensures IntegrateRk4(dt, EQUILIBRIUM, p, m) == EQUILIBRIUM
  {
    var zero := ZERO_DERIVATIVE;
    EquilibriumHasZeroDerivative(p, m);
    assert AddScaledDerivative(EQUILIBRIUM, zero, dt / 2.0) == EQUILIBRIUM;
    assert AddScaledDerivative(EQUILIBRIUM, zero, dt) == EQUILIBRIUM;
    assert Rk4SlopesAt(dt, EQUILIBRIUM, p, m) == Rk4Slopes(zero, zero, zero, zero);
    assert AddScaledDerivative(EQUILIBRIUM, zero, dt / 6.0) == EQUILIBRIUM;
  }

  // ---------------------------------------------------------------------
  // Energy error of a step

  const ENERGY_FLOOR: real := 0.0000000001

  /** Relative energy change |E1 - E0| / |E0| when |E0| exceeds 1e-10, and
      the absolute change otherwise. */
  function EnergyError(e0: real, e1: real): (r: real)
    ensures 0.0 <= r
    ensures r == 0.0 <==> e0 == e1
    ensures ENERGY_FLOOR < Abs(e0) ==> r * Abs(e0) == Abs(e1 - e0)
    ensures Abs(e0) <= ENERGY_FLOOR ==> r == Abs(e1 - e0)
  {
    if Abs(e0) > ENERGY_FLOOR then
      QuotientTimesDivisor(Abs(e1 - e0), Abs(e0));
      Abs(e1 - e0) / Abs(e0)
    else
      Abs(e1 - e0)
  }

  lemma QuotientTimesDivisor(a: real, b: real)
    requires 0.0 <= a && 0.0 < b
    ensures (a / b) * b == a && 0.0 <= a / b && (a / b == 0.0 <==> a == 0.0)
  {
  }

  /** The engine's primary call: one RK4 step together with the energy
      error it introduced. */
  function Step(dt: real, s: PendulumState, p: PendulumParams, m: Fns): (PendulumState, real) {
    var initialEnergy := TotalEnergy(s, p, m);
    var newState := IntegrateRk4(dt, s, p, m);
    var finalEnergy := TotalEnergy(newState, p, m);
    (newState, EnergyError(initialEnergy, finalEnergy))
  }

  /** A step returns the RK4 successor and a non-negative energy error that
      is zero exactly when the step conserved the total energy; it is the
      relative change when the initial energy exceeds 1e-10 in magnitude
      and the absolute change otherwise. */
  lemma StepReportsEnergyError(dt: real, s: PendulumState, p: PendulumParams, m: Fns)
    ensures Step(dt, s, p, m).0 == IntegrateRk4(dt, s, p, m)
    ensures 0.0 <= Step(dt, s, p, m).1
    ensures Step(dt, s, p, m).1 == 0.0 <==> TotalEnergy(IntegrateRk4(dt, s, p, m), p, m) == TotalEnergy(s, p, m)
    ensures ENERGY_FLOOR < Abs(TotalEnergy(s, p, m)) ==>
              Step(dt, s, p, m).1 * Abs(TotalEnergy(s, p, m))
              == Abs(TotalEnergy(IntegrateRk4(dt, s, p, m), p, m) - TotalEnergy(s, p, m))
    ensures Abs(TotalEnergy(s, p, m)) <= ENERGY_FLOOR ==>
              Step(dt, s, p, m).1 == Abs(TotalEnergy(IntegrateRk4(dt, s, p, m), p, m) - TotalEnergy(s, p, m))
  {
    hide TotalEnergy, IntegrateRk4, KineticEnergy, PotentialEnergy, EnergyError;
  }

  /** A step from the equilibrium stays there and reports no energy error. */
  lemma EquilibriumStepIsExact(dt: real, p: PendulumParams, m: Fns)
    requires TrigAtZero(m)
    ensures Step(dt, EQUILIBRIUM, p, m) == (EQUILIBRIUM, 0.0)
  {
    EquilibriumIsFixedPoint(dt, p, m);
  }

  // ---------------------------------------------------------------------
  // Adaptive step size

  const ADAPTIVE_MIN_DT: real := 0.00000001
  const ADAPTIVE_MAX_DT: real := 0.01

  /** The largest componentwise absolute difference between two states. */
  function EstimateError(fullStep: PendulumState, halfSteps: PendulumState): (r: real)
    ensures 0.0 <= r
    ensures Abs(fullStep.theta1 - halfSteps.theta1) <= r && Abs(fullStep.theta2 - halfSteps.theta2) <= r
    ensures Abs(fullStep.omega1 - halfSteps.omega1) <= r && Abs(fullStep.omega2 - halfSteps.omega2) <= r
    ensures r == Abs(fullStep.theta1 - halfSteps.theta1) || r == Abs(fullStep.theta2 - halfSteps.theta2)
         || r == Abs(fullStep.omega1 - halfSteps.omega1) || r == Abs(fullStep.omega2 - halfSteps.omega2)
    ensures r == 0.0 <==> fullStep == halfSteps
  {
    var errorTheta1 := Abs(fullStep.theta1 - halfSteps.theta1);
    var errorTheta2 := Abs(fullStep.theta2 - halfSteps.theta2);
    var errorOmega1 := Abs(fullStep.omega1 - halfSteps.omega1);
    var errorOmega2 := Abs(fullStep.omega2 - halfSteps.omega2);
    Max(Max(Max(errorTheta1, errorTheta2), errorOmega1), errorOmega2)
  }

  /** Two RK4 steps of half the given size. */
  function TwoHalfSteps(dt: real, s: PendulumState, p: PendulumParams, m: Fns): PendulumState {
    var half := dt / 2.0;
    IntegrateRk4(half, IntegrateRk4(half, s, p, m), p, m)
  }

  /** The step-doubling error estimate for a step of size dt. */
  function StepDoublingError(dt: real, s: PendulumState, p: PendulumParams, m: Fns): real {
    EstimateError(IntegrateRk4(dt, s, p, m), TwoHalfSteps(dt, s, p, m))
  }

  /** Tries steps starting from the engine's dt. A step whose error estimate
      is below the tolerance is accepted with its two-half-step result, and
      the step size returned for the next call grows by half (capped at
      1e-2) when the error was below a tenth of the tolerance. Otherwise the
      step is halved, with a floor of 1e-8; on reaching the floor the
      full-step result of the last rejected step is returned with dt = 1e-8.
      Each rejection that does not reach the floor at least halves the step,
      so the loop ends whatever the error estimates are. `stepDt` is the
      step size the returned state was computed with: the engine's dt halved
      `halvings` times, every smaller number of halvings having been tried,
      rejected, and halved to a step still above the floor. */
  method IntegrateAdaptive(dt: real, s: PendulumState, p: PendulumParams, tolerance: real, m: Fns)
    returns (next: PendulumState, nextDt: real, ghost stepDt: real, ghost halvings: nat)
    ensures stepDt == Halved(dt, halvings)
    ensures forall j :: 0 <= j < halvings ==> tolerance <= StepDoublingError(Halved(dt, j), s, p, m)
    ensures forall j :: 0 <= j < halvings ==> ADAPTIVE_MIN_DT < Halved(dt, j) * 0.5
    ensures nextDt <= Max(dt, ADAPTIVE_MAX_DT)
    ensures tolerance <= 0.0 ==> nextDt == ADAPTIVE_MIN_DT
    ensures || (&& StepDoublingError(stepDt, s, p, m) < tolerance
                && next == TwoHalfSteps(stepDt, s, p, m)
                && nextDt == (if StepDoublingError(stepDt, s, p, m) < tolerance / 10.0 && stepDt < ADAPTIVE_MAX_DT
                              then Min(stepDt * 1.5, ADAPTIVE_MAX_DT) else stepDt))
            || (&& tolerance <= StepDoublingError(stepDt, s, p, m)
                && next == IntegrateRk4(stepDt, s, p, m)
                && stepDt * 0.5 <= ADAPTIVE_MIN_DT
                && nextDt == ADAPTIVE_MIN_DT)
  {
    hide IntegrateRk4, TwoHalfSteps, EstimateError;
    var currentDt := dt;
    halvings := 0;
    while true
      invariant currentDt <= Max(dt, ADAPTIVE_MAX_DT)
      invariant currentDt == Halved(dt, halvings)
      invariant forall j :: 0 <= j < halvings ==> tolerance <= StepDoublingError(Halved(dt, j), s, p, m)
      invariant forall j :: 0 <= j < halvings ==> ADAPTIVE_MIN_DT < Halved(dt, j) * 0.5
      decreases if currentDt <= ADAPTIVE_MIN_DT then 0 else (currentDt / ADAPTIVE_MIN_DT).Floor
    {
      var resultFull := IntegrateRk4(currentDt, s, p, m);
      var resultHalf2 := TwoHalfSteps(currentDt, s, p, m);
      var error := EstimateError(resultFull, resultHalf2);
      assert error == StepDoublingError(currentDt, s, p, m);
      if error < tolerance {
        stepDt := currentDt;
        if error < tolerance / 10.0 && currentDt < ADAPTIVE_MAX_DT {
          currentDt := Min(currentDt * 1.5, ADAPTIVE_MAX_DT);
        }
        return resultHalf2, currentDt, stepDt, halvings;
      } else {
        assert tolerance <= StepDoublingError(Halved(dt, halvings), s, p, m);
        var previousDt := currentDt;
        currentDt := Max(currentDt * 0.5, ADAPTIVE_MIN_DT);
        if currentDt <= ADAPTIVE_MIN_DT {
          return resultFull, currentDt, previousDt, halvings;
        }
        HalvingShrinksMeasure(previousDt);
        halvings := halvings + 1;
      }
    }
  }

  /** x halved k times: x·0.5^k. */
  function Halved(x: real, k: nat): (r: real)
    ensures 0.0 < x ==> 0.0 < r <= x
  {
    if k == 0 then x else Halved(x, k - 1) * 0.5
  }

  /** Halving a step above twice the floor lowers its count of floor-sized
      units. */
  lemma HalvingShrinksMeasure(x: real)
    requires ADAPTIVE_MIN_DT < x * 0.5
    ensures (x * 0.5 / ADAPTIVE_MIN_DT).Floor < (x / ADAPTIVE_MIN_DT).Floor
  {
    var u := x / ADAPTIVE_MIN_DT;
    assert x * 0.5 / ADAPTIVE_MIN_DT == u / 2.0;
    assert 2.0 < u;
  }
}
