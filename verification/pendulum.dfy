/** The pendulum's state and physical parameters, the geometric and energy
    queries on them, angle normalisation, and the `DoublePendulum` record
    that couples a state with its parameters and elapsed time.

    Angles are in radians, measured from the downward vertical; the pivot is
    the origin and the zero of potential energy. */
module Pendulum {
  import opened Numerics
  import opened Wrappers

  /** Angles θ1, θ2 and angular velocities ω1, ω2 of the two links. */
  datatype PendulumState = PendulumState(theta1: real, theta2: real, omega1: real, omega2: real)

  /** Masses, arm lengths, gravitational acceleration and linear damping. */
  datatype PendulumParams = PendulumParams(m1: real, m2: real, l1: real, l2: real, g: real, damping: real)

  datatype Point = Point(x: real, y: real)

  /** Why `Validate` rejected a parameter set: the first failing field. */
  datatype ParamError =
    | Mass1NotPositive
    | Mass2NotPositive
    | Length1NotPositive
    | Length2NotPositive
    | GravityNotPositive
    | DampingNegative

  /** A state at the given angles with both links at rest. */
  function AtRest(theta1: real, theta2: real): PendulumState {
    PendulumState(theta1, theta2, 0.0, 0.0)
  }

  // ---------------------------------------------------------------------
  // Geometry

  function Mass1Position(s: PendulumState, l1: real, m: Fns): Point {
    Point(l1 * m.sin(s.theta1), -l1 * m.cos(s.theta1))
  }

  function Mass2Position(s: PendulumState, l1: real, l2: real, m: Fns): Point {
    var p1 := Mass1Position(s, l1, m);
    Point(p1.x + l2 * m.sin(s.theta2), p1.y - l2 * m.cos(s.theta2))
  }

  /** Mass 1 hangs at distance l1 from the pivot and mass 2 at distance l2
      from mass 1, whatever the angles. */
  lemma ArmLengthsPreserved(s: PendulumState, l1: real, l2: real, m: Fns)
    requires Pythagorean(m)
    ensures var p1 := Mass1Position(s, l1, m);
            p1.x * p1.x + p1.y * p1.y == l1 * l1
    ensures var p1 := Mass1Position(s, l1, m);
            var p2 := Mass2Position(s, l1, l2, m);
            (p2.x - p1.x) * (p2.x - p1.x) + (p2.y - p1.y) * (p2.y - p1.y) == l2 * l2
  {
    ScaledUnitCircle(l1, m.sin(s.theta1), m.cos(s.theta1));
    ScaledUnitCircle(l2, m.sin(s.theta2), m.cos(s.theta2));
  }

  lemma ScaledUnitCircle(l: real, sn: real, cs: real)
    requires sn * sn + cs * cs == 1.0
    ensures (l * sn) * (l * sn) + (-l * cs) * (-l * cs) == l * l
  {
    calc {
      (l * sn) * (l * sn) + (-l * cs) * (-l * cs);
      (l * l) * (sn * sn + cs * cs);
      l * l;
    }
  }

  /** Hanging straight down, the masses sit at (0, -l1) and (0, -l1-l2). */
  lemma PositionsHangingDown(l1: real, l2: real, m: Fns)
    requires TrigAtZero(m)
    ensures Mass1Position(AtRest(0.0, 0.0), l1, m) == Point(0.0, -l1)
    ensures Mass2Position(AtRest(0.0, 0.0), l1, l2, m) == Point(0.0, -l1 - l2)
  {
  }

  // ---------------------------------------------------------------------
  // Energy

  function KineticEnergy(s: PendulumState, p: PendulumParams, m: Fns): (e: real)
    ensures 0.0 <= p.m1 && 0.0 <= p.m2 ==> 0.0 <= e
    ensures s.omega1 == 0.0 && s.omega2 == 0.0 ==> e == 0.0
  {
    var ke1 := 0.5 * p.m1 * (p.l1 * p.l1) * (s.omega1 * s.omega1);
    var v2x := p.l1 * s.omega1 * m.cos(s.theta1) + p.l2 * s.omega2 * m.cos(s.theta2);
    var v2y := p.l1 * s.omega1 * m.sin(s.theta1) + p.l2 * s.omega2 * m.sin(s.theta2);
    var ke2 := 0.5 * p.m2 * (v2x * v2x + v2y * v2y);
    KineticTermsNonNegative(p.m1, p.m2, p.l1, s.omega1, v2x, v2y);
    ke1 + ke2
  }

  lemma KineticTermsNonNegative(m1: real, m2: real, l1: real, w1: real, vx: real, vy: real)
    ensures 0.0 <= m1 ==> 0.0 <= 0.5 * m1 * (l1 * l1) * (w1 * w1)
    ensures 0.0 <= m2 ==> 0.0 <= 0.5 * m2 * (vx * vx + vy * vy)
  {
    Square(l1);
    Square(w1);
    Square(vx);
    Square(vy);
    if 0.0 <= m1 {
      NonNegativeProduct(0.5 * m1, l1 * l1);
      NonNegativeProduct(0.5 * m1 * (l1 * l1), w1 * w1);
    }
    if 0.0 <= m2 {
      NonNegativeProduct(0.5 * m2, vx * vx + vy * vy);
    }
  }

  /** Kinetic energy is a quadratic form in the angular velocities: scaling
      both by c scales the energy by c², so reversing the motion leaves it
      unchanged. */
  lemma {:induction false} KineticEnergyQuadratic(s: PendulumState, p: PendulumParams, m: Fns, c: real)
    ensures KineticEnergy(s.(omega1 := c * s.omega1, omega2 := c * s.omega2), p, m)
            == c * c * KineticEnergy(s, p, m)
  {
    var s' := s.(omega1 := c * s.omega1, omega2 := c * s.omega2);
    var c1, s1, c2, s2 := m.cos(s.theta1), m.sin(s.theta1), m.cos(s.theta2), m.sin(s.theta2);
    var vx := p.l1 * s.omega1 * c1 + p.l2 * s.omega2 * c2;
    var vy := p.l1 * s.omega1 * s1 + p.l2 * s.omega2 * s2;
    var vx' := p.l1 * s'.omega1 * c1 + p.l2 * s'.omega2 * c2;
    var vy' := p.l1 * s'.omega1 * s1 + p.l2 * s'.omega2 * s2;
    assert vx' == c * vx;
    assert vy' == c * vy;
    assert vx' * vx' + vy' * vy' == (c * c) * (vx * vx + vy * vy);
    var w := s.omega1;
    assert (c * w) * (c * w) == (c * c) * (w * w);
  }

  function PotentialEnergy(s: PendulumState, p: PendulumParams, m: Fns): (e: real)
    ensures e == p.g * (p.m1 * Mass1Position(s, p.l1, m).y + p.m2 * Mass2Position(s, p.l1, p.l2, m).y)
  {
    var y1 := -p.l1 * m.cos(s.theta1);
    var y2 := y1 - p.l2 * m.cos(s.theta2);
    p.m1 * p.g * y1 + p.m2 * p.g * y2
  }

  /** With valid parameters the potential energy is bounded by the hanging
      configuration from below and the inverted one from above. */
  lemma PotentialEnergyBounds(s: PendulumState, p: PendulumParams, m: Fns)
    requires CosSquaredAtMostOne(m) && ValidParams(p)
    ensures -((p.m1 + p.m2) * p.g * p.l1 + p.m2 * p.g * p.l2)
            <= PotentialEnergy(s, p, m)
            <= (p.m1 + p.m2) * p.g * p.l1 + p.m2 * p.g * p.l2
  {
    var c1, c2 := m.cos(s.theta1), m.cos(s.theta2);
    UnitBound(c1);
    UnitBound(c2);
    var k1 := (p.m1 + p.m2) * p.g * p.l1;
    var k2 := p.m2 * p.g * p.l2;
    assert PotentialEnergy(s, p, m) == -(k1 * c1 + k2 * c2);
    assert 0.0 < k1 && 0.0 < k2 by {
      NonNegativeProduct(p.m1 + p.m2, p.g);
      NonNegativeProduct(p.m2, p.g);
    }
    BoundedCombination(k1, k2, c1, c2);
  }

  lemma BoundedCombination(k1: real, k2: real, c1: real, c2: real)
    requires 0.0 < k1 && 0.0 < k2 && -1.0 <= c1 <= 1.0 && -1.0 <= c2 <= 1.0
    ensures -(k1 + k2) <= -(k1 * c1 + k2 * c2) <= k1 + k2
  {
    ScaledUnit(k1, c1);
    ScaledUnit(k2, c2);
  }

  lemma UnitBound(c: real)
    requires c * c <= 1.0
    ensures -1.0 <= c <= 1.0
  {
  }

  lemma ScaledUnit(k: real, c: real)
    requires 0.0 < k && -1.0 <= c <= 1.0
    ensures -k <= k * c <= k
  {
  }

  /** The total mechanical energy: kinetic plus potential. */
  function TotalEnergy(s: PendulumState, p: PendulumParams, m: Fns): (e: real)
    ensures 0.0 <= p.m1 && 0.0 <= p.m2 ==> PotentialEnergy(s, p, m) <= e
    ensures s.omega1 == 0.0 && s.omega2 == 0.0 ==> e == PotentialEnergy(s, p, m)
    ensures e - PotentialEnergy(s, p, m) == KineticEnergy(s, p, m)
  {
    KineticEnergy(s, p, m) + PotentialEnergy(s, p, m)
  }

  /** A state at rest has no velocity and no kinetic energy, so its total
      energy is its potential energy. */
  lemma AtRestHasNoKineticEnergy(theta1: real, theta2: real, p: PendulumParams, m: Fns)
    ensures AtRest(theta1, theta2).omega1 == 0.0 && AtRest(theta1, theta2).omega2 == 0.0
    ensures KineticEnergy(AtRest(theta1, theta2), p, m) == 0.0
    ensures TotalEnergy(AtRest(theta1, theta2), p, m) == PotentialEnergy(AtRest(theta1, theta2), p, m)
  {
  }

  // ---------------------------------------------------------------------
  // Angles

  /** Brings an angle into [-PI, PI]: remainder by a full turn, then one
      correction step. The result differs from the input by whole turns. */
  function NormalizeAngle(angle: real): (r: real)
    ensures -PI <= r <= PI
    ensures WholeTurns(angle - r)
    ensures -PI <= angle <= PI ==> r == angle
  {
    var normalized := RemTwoPi(angle);
    if normalized > PI then
      ShiftByTurn(angle, normalized, -1);
      normalized - TWO_PI
    else if normalized < -PI then
      ShiftByTurn(angle, normalized, 1);
      normalized + TWO_PI
    else
      normalized
  }

  lemma ShiftByTurn(angle: real, r: real, k: int)
    requires WholeTurns(angle - r)
    ensures WholeTurns(angle - (r + k as real * TWO_PI))
  {
    var q := (angle - r) / TWO_PI;
    var d := angle - (r + k as real * TWO_PI);
    assert angle - r == q * TWO_PI;
    assert d == (q - k as real) * TWO_PI;
    assert d / TWO_PI == q - k as real;
    assert (q - k as real).Floor == q.Floor - k;
  }

  /** Normalising twice is normalising once. */
  lemma NormalizeAngleIdempotent(angle: real)
    ensures NormalizeAngle(NormalizeAngle(angle)) == NormalizeAngle(angle)
  {
  }

  /** Normalises both angles; the angular velocities are untouched. */
  function NormalizeAngles(s: PendulumState): (r: PendulumState)
    ensures -PI <= r.theta1 <= PI && -PI <= r.theta2 <= PI
    ensures WholeTurns(s.theta1 - r.theta1) && WholeTurns(s.theta2 - r.theta2)
    ensures r.omega1 == s.omega1 && r.omega2 == s.omega2
  {
    s.(theta1 := NormalizeAngle(s.theta1), theta2 := NormalizeAngle(s.theta2))
  }

  // ---------------------------------------------------------------------
  // Parameters

  /** The physical constraints on a parameter set. */
  predicate ValidParams(p: PendulumParams) {
    && 0.0 < p.m1 && 0.0 < p.m2
    && 0.0 < p.l1 && 0.0 < p.l2
    && 0.0 < p.g && 0.0 <= p.damping
  }

  /** Checks the fields in the order m1, m2, l1, l2, g, damping and reports
      the first one that fails. */
  function Validate(p: PendulumParams): (r: Result<(), ParamError>)
    ensures r.Ok? <==> ValidParams(p)
    ensures r == Err(Mass1NotPositive) <==> p.m1 <= 0.0
    ensures r == Err(Mass2NotPositive) <==> 0.0 < p.m1 && p.m2 <= 0.0
    ensures r == Err(Length1NotPositive) <==> 0.0 < p.m1 && 0.0 < p.m2 && p.l1 <= 0.0
    ensures r == Err(Length2NotPositive) <==> 0.0 < p.m1 && 0.0 < p.m2 && 0.0 < p.l1 && p.l2 <= 0.0
    ensures r == Err(GravityNotPositive) <==>
              0.0 < p.m1 && 0.0 < p.m2 && 0.0 < p.l1 && 0.0 < p.l2 && p.g <= 0.0
    ensures r == Err(DampingNegative) <==>
              0.0 < p.m1 && 0.0 < p.m2 && 0.0 < p.l1 && 0.0 < p.l2 && 0.0 < p.g && p.damping < 0.0
  {
    if p.m1 <= 0.0 then Err(Mass1NotPositive)
    else if p.m2 <= 0.0 then Err(Mass2NotPositive)
    else if p.l1 <= 0.0 then Err(Length1NotPositive)
    else if p.l2 <= 0.0 then Err(Length2NotPositive)
    else if p.g <= 0.0 then Err(GravityNotPositive)
    else if p.damping < 0.0 then Err(DampingNegative)
    else Ok(())
  }

  /** Unit masses and arms, Earth gravity, no damping. */
  function DefaultParams(): PendulumParams {
    PendulumParams(1.0, 1.0, 1.0, 1.0, 9.81, 0.0)
  }

  /** The defaults pass validation; a negative upper mass does not. */
  lemma DefaultParamsValidate()
    ensures Validate(DefaultParams()) == Ok(())
    ensures Validate(DefaultParams().(m1 := -1.0)) == Err(Mass1NotPositive)
  {
  }

  // ---------------------------------------------------------------------
  // The simulated system

  /** A state with its parameters and the simulated time elapsed. */
  datatype DoublePendulum = DoublePendulum(state: PendulumState, params: PendulumParams, time: real)

  function NewDoublePendulum(state: PendulumState, params: PendulumParams): (d: DoublePendulum)
    ensures d.state == state && d.params == params && d.time == 0.0
  {
    DoublePendulum(state, params, 0.0)
  }

  /** Replaces the state and restarts the clock; the parameters stay. */
  function Reset(d: DoublePendulum, newState: PendulumState): (r: DoublePendulum)
    ensures r.state == newState && r.params == d.params && r.time == 0.0
  {
    d.(state := newState, time := 0.0)
  }

  /** Adds dt to the clock and changes nothing else. */
  function AdvanceTime(d: DoublePendulum, dt: real): (r: DoublePendulum)
    ensures r.state == d.state && r.params == d.params
    ensures r.time - d.time == dt
  {
    d.(time := d.time + dt)
  }

  /** Advancing the clock is additive, and resetting forgets every advance:
      the result is a freshly built system with the same parameters. */
  lemma ClockLaws(d: DoublePendulum, a: real, b: real, s: PendulumState)
    ensures AdvanceTime(AdvanceTime(d, a), b) == AdvanceTime(d, a + b)
    ensures 0.0 <= a ==> d.time <= AdvanceTime(d, a).time
    ensures Reset(AdvanceTime(d, a), s) == NewDoublePendulum(s, d.params)
  {
  }

  /** The Cartesian positions of both masses for the current state. */
  function Positions(d: DoublePendulum, m: Fns): (r: (Point, Point))
    ensures r.0 == Mass1Position(d.state, d.params.l1, m)
    ensures r.1.x - r.0.x == d.params.l2 * m.sin(d.state.theta2)
    ensures r.1.y - r.0.y == -d.params.l2 * m.cos(d.state.theta2)
  {
    (Mass1Position(d.state, d.params.l1, m), Mass2Position(d.state, d.params.l1, d.params.l2, m))
  }

  /** The system's energies are those of its state under its parameters. */
  function SystemTotalEnergy(d: DoublePendulum, m: Fns): real {
    TotalEnergy(d.state, d.params, m)
  }

  function SystemKineticEnergy(d: DoublePendulum, m: Fns): real {
    KineticEnergy(d.state, d.params, m)
  }

  function SystemPotentialEnergy(d: DoublePendulum, m: Fns): real {
    PotentialEnergy(d.state, d.params, m)
  }

  /** The system's total energy is its kinetic plus its potential energy;
      the clock does not affect any of them, and after a reset they are the
      new state's. */
  lemma SystemEnergies(d: DoublePendulum, dt: real, s: PendulumState, m: Fns)
    ensures SystemTotalEnergy(d, m) == SystemKineticEnergy(d, m) + SystemPotentialEnergy(d, m)
    ensures SystemTotalEnergy(AdvanceTime(d, dt), m) == SystemTotalEnergy(d, m)
    ensures SystemKineticEnergy(AdvanceTime(d, dt), m) == SystemKineticEnergy(d, m)
    ensures SystemPotentialEnergy(AdvanceTime(d, dt), m) == SystemPotentialEnergy(d, m)
    ensures SystemTotalEnergy(Reset(d, s), m) == TotalEnergy(s, d.params, m)
  {
    hide KineticEnergy, PotentialEnergy;
  }
}
