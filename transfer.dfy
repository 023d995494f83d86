/** The departure planning of autopilot/transfer.py: the Hohmann delta-v
    between the two planets' orbits, the escape burn from the parking orbit
    and its duration, the exit angle of the escape hyperbola, and the wait
    until the burn.

    Every Python expression that can raise is modelled with the exception
    it raises (`Result`); the formulas themselves are separate functions,
    defined where Python would not raise. */
module Transfer {
  import opened Numerics
  import opened VectorMath

  /** The script's standard gravity, turning a specific impulse in seconds
      into an exhaust velocity. */
  const G0: real := 9.82

  // ---------------------------------------------------------------------
  // calculate_hohmann_transfer

  /** `semi_major_axis = (r1 + r2) / 2` */
  function TransferAxis(r1: real, r2: real): real {
    (r1 + r2) / 2.0
  }

  /** `sqrt(mu / r)`: the speed on a circular orbit of radius `r`. */
  function CircularSpeed(m: Libm, mu: real, r: real): real
    requires r != 0.0
  {
    m.sqrt(mu / r)
  }

  /** `sqrt(r / a)`: the ratio of the transfer orbit's speed to the circular
      speed at the apsis of radius `r`. */
  function RootRatio(m: Libm, r: real, a: real): real
    requires a != 0.0
  {
    m.sqrt(r / a)
  }

  /** The second factor of `delta_v1`: `sqrt(r2 / a) - 1`. */
  function DepartureGain(m: Libm, r1: real, r2: real): real
    requires TransferAxis(r1, r2) != 0.0
  {
    RootRatio(m, r2, TransferAxis(r1, r2)) - 1.0
  }

  /** The second factor of `delta_v2`: `1 - sqrt(r1 / a)`. */
  function ArrivalGain(m: Libm, r1: real, r2: real): real
    requires TransferAxis(r1, r2) != 0.0
  {
    1.0 - RootRatio(m, r1, TransferAxis(r1, r2))
  }

  /** `delta_v1`: the burn that leaves the orbit of radius `r1`. */
  function DepartureBurn(m: Libm, mu: real, r1: real, r2: real): real
    requires r1 != 0.0 && TransferAxis(r1, r2) != 0.0
  {
    CircularSpeed(m, mu, r1) * DepartureGain(m, r1, r2)
  }

  /** `delta_v2`: the burn that joins the orbit of radius `r2`. */
  function ArrivalBurn(m: Libm, mu: real, r1: real, r2: real): real
    requires r2 != 0.0 && TransferAxis(r1, r2) != 0.0
  {
    CircularSpeed(m, mu, r2) * ArrivalGain(m, r1, r2)
  }

  datatype Burns = Burns(dv1: real, dv2: real)

  /** `calculate_hohmann_transfer(mu, r1, r2)`, raising where Python raises,
      in Python's order of evaluation. */
  function HohmannTransfer(m: Libm, mu: real, r1: real, r2: real): Result<Burns> {
    var a := TransferAxis(r1, r2);
    if r1 == 0.0 then Failure(ZeroDivision)
    else if mu / r1 < 0.0 then Failure(MathDomain)
    else if a == 0.0 then Failure(ZeroDivision)
    else if r2 / a < 0.0 then Failure(MathDomain)
    else if r2 == 0.0 then Failure(ZeroDivision)
    else if mu / r2 < 0.0 then Failure(MathDomain)
    else if r1 / a < 0.0 then Failure(MathDomain)
    else Success(Burns(DepartureBurn(m, mu, r1, r2), ArrivalBurn(m, mu, r1, r2)))
  }

  /** The transfer orbit's semi-major axis lies strictly between the two
      radii, and equals them when they coincide. */
  lemma TransferAxisBetween(r1: real, r2: real)
    ensures r1 < r2 ==> r1 < TransferAxis(r1, r2) < r2
    ensures r2 < r1 ==> r2 < TransferAxis(r1, r2) < r1
    ensures r1 == r2 ==> TransferAxis(r1, r2) == r1
  {
  }

  /** For a positive gravitational parameter and positive radii Python
      raises nothing, and the two burns are the formulas. */
  lemma HohmannTransferDefined(m: Libm, mu: real, r1: real, r2: real)
    requires 0.0 < mu && 0.0 < r1 && 0.0 < r2
    ensures HohmannTransfer(m, mu, r1, r2)
         == Success(Burns(DepartureBurn(m, mu, r1, r2), ArrivalBurn(m, mu, r1, r2)))
  {
    DivPos(mu, r1);
    DivPos(mu, r2);
    DivPos(r1, TransferAxis(r1, r2));
    DivPos(r2, TransferAxis(r1, r2));
  }

  /** The circular speed is positive. */
  lemma CircularSpeedPositive(m: Libm, mu: real, r: real)
    requires Lawful(m) && 0.0 < mu && 0.0 < r
    ensures 0.0 < CircularSpeed(m, mu, r)
  {
    DivPos(mu, r);
    SqrtNonNegative(m, mu / r);
  }

  /** The square root of `r / a` is above, at or below 1 as `r` is above, at
      or below `a`. */
  lemma RootRatioSign(m: Libm, r: real, a: real)
    requires Lawful(m) && 0.0 < r && 0.0 < a
    ensures a < r ==> 1.0 < RootRatio(m, r, a)
    ensures r == a ==> RootRatio(m, r, a) == 1.0
    ensures r < a ==> RootRatio(m, r, a) < 1.0
  {
    if a < r {
      DivAboveOne(r, a);
      SqrtAboveOne(m, r / a);
    } else if r == a {
      DivSelf(a);
      SqrtAtOne(m, r / a);
    } else {
      DivPos(r, a);
      DivBelowOne(r, a);
      SqrtBelowOne(m, r / a);
    }
  }

  /** Both second factors are positive for an outward transfer, zero
      between equal orbits and negative for an inward one. */
  lemma GainSign(m: Libm, r1: real, r2: real)
    requires Lawful(m) && 0.0 < r1 && 0.0 < r2
    ensures r1 < r2 ==> 0.0 < DepartureGain(m, r1, r2) && 0.0 < ArrivalGain(m, r1, r2)
    ensures r1 == r2 ==> DepartureGain(m, r1, r2) == 0.0 && ArrivalGain(m, r1, r2) == 0.0
    ensures r2 < r1 ==> DepartureGain(m, r1, r2) < 0.0 && ArrivalGain(m, r1, r2) < 0.0
  {
    TransferAxisBetween(r1, r2);
    RootRatioSign(m, r2, TransferAxis(r1, r2));
    RootRatioSign(m, r1, TransferAxis(r1, r2));
  }

  /** Each burn has the sign of its second factor. */
  lemma BurnFactorSign(m: Libm, mu: real, r1: real, r2: real)
    requires r1 != 0.0 && r2 != 0.0 && TransferAxis(r1, r2) != 0.0
    requires 0.0 < CircularSpeed(m, mu, r1) && 0.0 < CircularSpeed(m, mu, r2)
    ensures 0.0 < DepartureGain(m, r1, r2) ==> 0.0 < DepartureBurn(m, mu, r1, r2)
    ensures DepartureGain(m, r1, r2) == 0.0 ==> DepartureBurn(m, mu, r1, r2) == 0.0
    ensures DepartureGain(m, r1, r2) < 0.0 ==> DepartureBurn(m, mu, r1, r2) < 0.0
    ensures 0.0 < ArrivalGain(m, r1, r2) ==> 0.0 < ArrivalBurn(m, mu, r1, r2)
    ensures ArrivalGain(m, r1, r2) == 0.0 ==> ArrivalBurn(m, mu, r1, r2) == 0.0
    ensures ArrivalGain(m, r1, r2) < 0.0 ==> ArrivalBurn(m, mu, r1, r2) < 0.0
  {
    ProductSign(CircularSpeed(m, mu, r1), DepartureGain(m, r1, r2));
    ProductSign(CircularSpeed(m, mu, r2), ArrivalGain(m, r1, r2));
  }

  /** The departure burn is prograde for an outward transfer, zero between
      equal orbits and retrograde for an inward one. */
  lemma DepartureBurnSign(m: Libm, mu: real, r1: real, r2: real)
    requires Lawful(m) && 0.0 < mu && 0.0 < r1 && 0.0 < r2
    ensures r1 < r2 ==> 0.0 < DepartureBurn(m, mu, r1, r2)
    ensures r1 == r2 ==> DepartureBurn(m, mu, r1, r2) == 0.0
    ensures r2 < r1 ==> DepartureBurn(m, mu, r1, r2) < 0.0
  {
    CircularSpeedPositive(m, mu, r1);
    CircularSpeedPositive(m, mu, r2);
    GainSign(m, r1, r2);
    BurnFactorSign(m, mu, r1, r2);
  }

  /** The arrival burn has the same sign as the departure burn. */
  lemma ArrivalBurnSign(m: Libm, mu: real, r1: real, r2: real)
    requires Lawful(m) && 0.0 < mu && 0.0 < r1 && 0.0 < r2
    ensures r1 < r2 ==> 0.0 < ArrivalBurn(m, mu, r1, r2)
    ensures r1 == r2 ==> ArrivalBurn(m, mu, r1, r2) == 0.0
    ensures r2 < r1 ==> ArrivalBurn(m, mu, r1, r2) < 0.0
  {
    CircularSpeedPositive(m, mu, r1);
    CircularSpeedPositive(m, mu, r2);
    GainSign(m, r1, r2);
    BurnFactorSign(m, mu, r1, r2);
  }

  // ---------------------------------------------------------------------
  // The escape burn from the parking orbit (lines 56-61)

  /** `1 / a - 1 / soi`: the drop in potential, per unit of gravitational
      parameter, from the parking orbit to the edge of the sphere of
      influence. */
  function PotentialDrop(a: real, soi: real): real
    requires a != 0.0 && soi != 0.0
  {
    1.0 / a - 1.0 / soi
  }

  /** The argument of `math.sqrt` in `v_escape_velocity`. */
  function EscapeEnergy(vExit: real, mu: real, a: real, soi: real): real
    requires a != 0.0 && soi != 0.0
  {
    Power(vExit, 2) + 2.0 * mu * PotentialDrop(a, soi)
  }

  /** `delta_v = v_escape_velocity - v_orbital_velocity` for the hyperbolic
      excess speed `vExit`, the planet's gravitational parameter `mu`, the
      parking orbit's semi-major axis `a` and the sphere of influence `soi`,
      raising where Python raises. */
  function EscapeBurn(m: Libm, vExit: real, mu: real, a: real, soi: real): Result<real> {
    if a == 0.0 || soi == 0.0 then Failure(ZeroDivision)
    else if EscapeEnergy(vExit, mu, a, soi) < 0.0 then Failure(MathDomain)
    else if mu / a < 0.0 then Failure(MathDomain)
    else Success(m.sqrt(EscapeEnergy(vExit, mu, a, soi)) - CircularSpeed(m, mu, a))
  }

  /** Inside the sphere of influence the potential drop is non-negative, and
      it is at least half of `1 / a` when the orbit lies within half of it. */
  lemma PotentialDropBounds(a: real, soi: real)
    requires 0.0 < a <= soi
    ensures 0.0 <= PotentialDrop(a, soi)
    ensures 2.0 * a <= soi ==> 1.0 / a <= 2.0 * PotentialDrop(a, soi)
  {
    ReciprocalOrder(a, soi);
    if 2.0 * a <= soi {
      ReciprocalOrder(2.0 * a, soi);
      TwiceReciprocal(a);
    }
  }

  /** Within half the sphere of influence and for a non-zero excess speed
      the escape energy exceeds the square of the circular speed. */
  lemma EscapeEnergyBound(vExit: real, mu: real, a: real, soi: real)
    requires 0.0 < mu && 0.0 < a && 2.0 * a <= soi && vExit != 0.0
    ensures mu / a < EscapeEnergy(vExit, mu, a, soi)
  {
    PotentialDropBounds(a, soi);
    DivAsProduct(mu, a);
    MulLe(1.0 / a, 2.0 * PotentialDrop(a, soi), mu);
    SquareSign(vExit);
  }

  /** For a positive gravitational parameter and a parking orbit inside the
      sphere of influence Python raises nothing. */
  lemma EscapeBurnDefined(m: Libm, vExit: real, mu: real, a: real, soi: real)
    requires 0.0 < mu && 0.0 < a <= soi
    ensures EscapeBurn(m, vExit, mu, a, soi).Success?
  {
    PotentialDropBounds(a, soi);
    NonNegativeProduct(2.0 * mu, PotentialDrop(a, soi));
    SquareSign(vExit);
    DivPos(mu, a);
  }

  /** A non-zero excess speed needs a prograde escape burn when the parking
      orbit lies within half the sphere of influence. */
  lemma EscapeBurnPositive(m: Libm, vExit: real, mu: real, a: real, soi: real)
    requires Lawful(m) && 0.0 < mu && 0.0 < a && 2.0 * a <= soi && vExit != 0.0
    ensures EscapeBurn(m, vExit, mu, a, soi).Success?
    ensures 0.0 < EscapeBurn(m, vExit, mu, a, soi).value
  {
    EscapeBurnDefined(m, vExit, mu, a, soi);
    EscapeEnergyBound(vExit, mu, a, soi);
    DivPos(mu, a);
    SqrtMonotone(m, mu / a, EscapeEnergy(vExit, mu, a, soi));
    assert CircularSpeed(m, mu, a) < m.sqrt(EscapeEnergy(vExit, mu, a, soi));
  }

  // ---------------------------------------------------------------------
  // The burn time from the rocket equation (lines 65-70)

  /** `isp = vessel.specific_impulse * 9.82`: the effective exhaust velocity. */
  function ExhaustVelocity(specificImpulse: real): real {
    specificImpulse * G0
  }

  /** `math.exp(delta_v / isp)`: the ratio of initial to final mass. */
  function MassRatio(m: Libm, deltaV: real, ve: real): real
    requires ve != 0.0
  {
    m.exp(deltaV / ve)
  }

  /** `final_mass = initial_mass / math.exp(delta_v / isp)` */
  function FinalMass(m: Libm, initialMass: real, deltaV: real, ve: real): real
    requires ve != 0.0 && MassRatio(m, deltaV, ve) != 0.0
  {
    initialMass / MassRatio(m, deltaV, ve)
  }

  /** `initial_mass - final_mass`: the propellant the burn consumes. */
  function Propellant(m: Libm, initialMass: real, deltaV: real, ve: real): real
    requires ve != 0.0 && MassRatio(m, deltaV, ve) != 0.0
  {
    initialMass - FinalMass(m, initialMass, deltaV, ve)
  }

  /** `flow_rate = thrust / isp` */
  function FlowRate(thrust: real, ve: real): real
    requires ve != 0.0
  {
    thrust / ve
  }

  /** `burn_time = (initial_mass - final_mass) / flow_rate`, raising where
      Python raises: a zero exhaust velocity, a mass ratio of zero (an
      underflowing `exp`) or a zero thrust. */
  function BurnTime(m: Libm, deltaV: real, thrust: real, specificImpulse: real, initialMass: real): Result<real> {
    var ve := ExhaustVelocity(specificImpulse);
    if ve == 0.0 then Failure(ZeroDivision)
    else if MassRatio(m, deltaV, ve) == 0.0 then Failure(ZeroDivision)
    else if FlowRate(thrust, ve) == 0.0 then Failure(ZeroDivision)
    else Success(Propellant(m, initialMass, deltaV, ve) / FlowRate(thrust, ve))
  }

  /** A prograde burn leaves a positive mass below the initial mass, and a
      burn of zero delta-v leaves the mass as it was. */
  lemma FinalMassBounds(m: Libm, initialMass: real, deltaV: real, ve: real)
    requires Lawful(m) && 0.0 < initialMass && 0.0 < ve && 0.0 <= deltaV
    ensures MassRatio(m, deltaV, ve) != 0.0
    ensures 0.0 < deltaV ==> 0.0 < FinalMass(m, initialMass, deltaV, ve) < initialMass
    ensures deltaV == 0.0 ==> FinalMass(m, initialMass, deltaV, ve) == initialMass
  {
    ExpSign(m, deltaV / ve);
    if 0.0 < deltaV {
      DivPos(deltaV, ve);
      DivByAboveOne(initialMass, MassRatio(m, deltaV, ve));
    } else {
      ExpAtZero(m, deltaV / ve);
    }
  }

  /** With positive mass, thrust and specific impulse, a prograde burn takes a
      positive time and a burn of zero delta-v takes none. */
  lemma BurnTimeSign(m: Libm, deltaV: real, thrust: real, specificImpulse: real, initialMass: real)
    requires Lawful(m) && 0.0 < initialMass && 0.0 < thrust && 0.0 < specificImpulse && 0.0 <= deltaV
    ensures BurnTime(m, deltaV, thrust, specificImpulse, initialMass).Success?
    ensures 0.0 < deltaV ==> 0.0 < BurnTime(m, deltaV, thrust, specificImpulse, initialMass).value
    ensures deltaV == 0.0 ==> BurnTime(m, deltaV, thrust, specificImpulse, initialMass) == Success(0.0)
  {
    var ve := ExhaustVelocity(specificImpulse);
    FinalMassBounds(m, initialMass, deltaV, ve);
    DivPos(thrust, ve);
    if 0.0 < deltaV {
      DivPos(Propellant(m, initialMass, deltaV, ve), FlowRate(thrust, ve));
    }
  }

  // ---------------------------------------------------------------------
  // The exit angle and the angular velocity (lines 74-79)

  /** `eccentricity = 1 + a * v_exit ** 2 / mu` of the escape hyperbola. */
  function Eccentricity(a: real, vExit: real, mu: real): real
    requires mu != 0.0
  {
    1.0 + a * Power(vExit, 2) / mu
  }

  /** `required_exit_angle = math.acos(-1 / eccentricity)`, raising where
      Python raises. The source has no branch for an eccentricity below 1. */
  function ExitAngle(m: Libm, a: real, vExit: real, mu: real): Result<real> {
    if mu == 0.0 || Eccentricity(a, vExit, mu) == 0.0 then Failure(ZeroDivision)
    else Acos(m, -1.0 / Eccentricity(a, vExit, mu))
  }

  /** For a non-negative semi-major axis and a positive gravitational
      parameter the orbit is at least parabolic, and exactly so when the
      excess speed or the axis is zero. */
  lemma EccentricityAtLeastOne(a: real, vExit: real, mu: real)
    requires 0.0 <= a && 0.0 < mu
    ensures 1.0 <= Eccentricity(a, vExit, mu)
    ensures Eccentricity(a, vExit, mu) == 1.0 <==> a == 0.0 || vExit == 0.0
  {
    SquareSign(vExit);
    NonNegativeProduct(a, Power(vExit, 2));
    if 0.0 < a * Power(vExit, 2) {
      DivPos(a * Power(vExit, 2), mu);
    }
  }

  /** Then `-1 / eccentricity` lies in [-1, 0), so Python raises nothing and
      the exit angle lies in (PI/2, PI]. */
  lemma ExitAngleRange(m: Libm, a: real, vExit: real, mu: real)
    requires Lawful(m) && 0.0 <= a && 0.0 < mu
    ensures ExitAngle(m, a, vExit, mu).Success?
    ensures PI / 2.0 < ExitAngle(m, a, vExit, mu).value <= PI
  {
    EccentricityAtLeastOne(a, vExit, mu);
    ReciprocalOrder(1.0, Eccentricity(a, vExit, mu));
    AcosOfNegative(m, -1.0 / Eccentricity(a, vExit, mu));
  }

  /** `angular_velocity = math.sqrt(mu / a ** 3)`, raising where Python
      raises. */
  function AngularVelocity(m: Libm, mu: real, a: real): Result<real> {
    if Power(a, 3) == 0.0 then Failure(ZeroDivision)
    else Sqrt(m, mu / Power(a, 3))
  }

  /** A positive gravitational parameter and semi-major axis give a positive
      angular velocity. */
  lemma AngularVelocityPositive(m: Libm, mu: real, a: real)
    requires Lawful(m) && 0.0 < mu && 0.0 < a
    ensures AngularVelocity(m, mu, a).Success?
    ensures 0.0 < AngularVelocity(m, mu, a).value
  {
    CubeSign(a);
    DivPos(mu, Power(a, 3));
    SqrtNonNegative(m, mu / Power(a, 3));
  }

  // ---------------------------------------------------------------------
  // The angle to travel before the burn (lines 82-103)

  /** `theta = math.pi - calculate_angle_between_vectors(kerbin velocity,
      vessel position - kerbin position)`: the vessel's angle around the
      planet, measured from the planet's retrograde direction. */
  function OrbitAngle(m: Libm, bodyVelocity: Vec3, vesselPosition: Vec3, bodyPosition: Vec3): Result<real> {
    var angle :- AngleBetween(m, bodyVelocity, Subtract(vesselPosition, bodyPosition));
    Success(PI - angle)
  }

  /** For a moving planet and a vessel away from its centre the orbit angle
      is defined and lies in [0, PI]. */
  lemma OrbitAngleRange(m: Libm, bodyVelocity: Vec3, vesselPosition: Vec3, bodyPosition: Vec3)
    requires Lawful(m) && SqrtSquares(m.sqrt)
    requires !IsZero(bodyVelocity) && vesselPosition != bodyPosition
    ensures OrbitAngle(m, bodyVelocity, vesselPosition, bodyPosition).Success?
    ensures 0.0 <= OrbitAngle(m, bodyVelocity, vesselPosition, bodyPosition).value <= PI
  {
    AngleRange(m, bodyVelocity, Subtract(vesselPosition, bodyPosition));
  }

  /** `delta_angle` from the two samples `theta0` and `theta1`, the exit
      angle, the angular velocity and the burn time. When the angle is
      decreasing and has not yet passed the exit angle, a full turn is added
      if the time left is not more than half the burn; the division by the
      angular velocity there is the one place this can raise. */
  function DeltaAngle(theta0: real, theta1: real, exitAngle: real, omega: real, burnTime: real): Result<real> {
    if theta0 > theta1 then
      if PI >= theta1 >= exitAngle then
        if omega == 0.0 then Failure(ZeroDivision)
        else if (theta1 - exitAngle) / omega - burnTime / 2.0 <= 0.0 then Success(theta1 - exitAngle + 2.0 * PI)
        else Success(theta1 - exitAngle)
      else Success(2.0 * PI + theta1 - exitAngle)
    else Success(2.0 * PI - (theta1 + exitAngle))
  }

  /** What the angle to travel means: while the angle decreases, travelling
      it brings the vessel to the exit angle, possibly one turn later; while
      it does not, the angle travelled and the exit angle complete the turn
      from `theta1`. */
  lemma DeltaAngleReachesExit(theta0: real, theta1: real, exitAngle: real, omega: real, burnTime: real)
    requires DeltaAngle(theta0, theta1, exitAngle, omega, burnTime).Success?
    ensures var d := DeltaAngle(theta0, theta1, exitAngle, omega, burnTime).value;
      && (theta0 > theta1 ==> theta1 - d == exitAngle || theta1 - d == exitAngle - 2.0 * PI)
      && (theta0 <= theta1 ==> theta1 + d == 2.0 * PI - exitAngle)
  {
  }

  /** It raises only for a zero angular velocity, and only in the branch
      that divides by it. */
  lemma DeltaAngleDefined(theta0: real, theta1: real, exitAngle: real, omega: real, burnTime: real)
    ensures DeltaAngle(theta0, theta1, exitAngle, omega, burnTime).Failure?
        <==> theta0 > theta1 && exitAngle <= theta1 <= PI && omega == 0.0
  {
  }

  /** With the current angle and the exit angle in [0, PI], the angle to
      travel is non-negative and at most three half-turns; a full turn is
      added only before the exit angle is reached and only when the time
      left is not more than half the burn. */
  lemma DeltaAngleBounds(theta0: real, theta1: real, exitAngle: real, omega: real, burnTime: real)
    requires 0.0 <= theta1 <= PI && 0.0 <= exitAngle <= PI
    requires DeltaAngle(theta0, theta1, exitAngle, omega, burnTime).Success?
    ensures 0.0 <= DeltaAngle(theta0, theta1, exitAngle, omega, burnTime).value <= 3.0 * PI
    ensures 2.0 * PI < DeltaAngle(theta0, theta1, exitAngle, omega, burnTime).value
        ==> theta0 > theta1 && exitAngle < theta1 && (theta1 - exitAngle) / omega - burnTime / 2.0 <= 0.0
    ensures theta0 > theta1 && exitAngle <= theta1 && (theta1 - exitAngle) / omega - burnTime / 2.0 <= 0.0
        ==> 2.0 * PI <= DeltaAngle(theta0, theta1, exitAngle, omega, burnTime).value
  {
    PiBounds();
  }

  /** The angle to travel is not confined to [0, 2 PI): with the angle
      decreasing from 3.1 to 3.0, an exit angle of 2.0, an angular velocity
      of 1 and a burn of 4 s it is 1 + 2 PI. */
  lemma DeltaAngleBeyondOneTurn()
    ensures DeltaAngle(3.1, 3.0, 2.0, 1.0, 4.0) == Success(1.0 + 2.0 * PI)
    ensures 2.0 * PI < DeltaAngle(3.1, 3.0, 2.0, 1.0, 4.0).value
  {
    PiBounds();
  }

  // ---------------------------------------------------------------------
  // The phase angle, the wait and the node epoch (lines 105-119)

  /** `phase_angle`: the angle between the two planets' positions around the
      Sun, in degrees. */
  function PhaseAngle(m: Libm, originPosition: Vec3, targetPosition: Vec3): Result<real> {
    var angle :- AngleBetween(m, originPosition, targetPosition);
    Success(Degrees(angle))
  }

  /** Off the Sun's centre the phase angle is defined and lies in [0, 180]. */
  lemma PhaseAngleRange(m: Libm, originPosition: Vec3, targetPosition: Vec3)
    requires Lawful(m) && SqrtSquares(m.sqrt) && !IsZero(originPosition) && !IsZero(targetPosition)
    ensures PhaseAngle(m, originPosition, targetPosition).Success?
    ensures 0.0 <= PhaseAngle(m, originPosition, targetPosition).value <= 180.0
  {
    AngleRange(m, originPosition, targetPosition);
    DegreesRange(AngleBetween(m, originPosition, targetPosition).value);
  }

  /** The wait `time_to_angle` as whole minutes and the seconds left over. */
  datatype Countdown = Countdown(minutes: int, seconds: real)

  /** `minutes_to_angle = int(t // 60)` and `seconds_to_angle = t % 60`,
      Python's flooring division and modulo. */
  function SplitMinutes(t: real): Countdown {
    var minutes := (t / 60.0).Floor;
    Countdown(minutes, t - 60.0 * minutes as real)
  }

  /** The minutes and seconds add back up to the wait, with the seconds in
      [0, 60). */
  lemma SplitMinutesRecombines(t: real)
    ensures t == 60.0 * SplitMinutes(t).minutes as real + SplitMinutes(t).seconds
    ensures 0.0 <= SplitMinutes(t).seconds < 60.0
  {
  }

  /** No other pair of whole minutes and seconds in [0, 60) adds up to the
      wait. */
  lemma SplitMinutesUnique(t: real, minutes: int, seconds: real)
    requires t == 60.0 * minutes as real + seconds && 0.0 <= seconds < 60.0
    ensures SplitMinutes(t) == Countdown(minutes, seconds)
  {
    SplitMinutesRecombines(t);
  }

  /** `time_to_angle = delta_angle / angular_velocity` split for display. */
  function WaitUntilBurn(deltaAngle: real, omega: real): Result<Countdown> {
    var t :- Div(deltaAngle, omega);
    Success(SplitMinutes(t))
  }

  /** The wait is defined exactly for a non-zero angular velocity, and its
      minutes and seconds then add up to the angle over the velocity. */
  lemma WaitUntilBurnSplits(deltaAngle: real, omega: real)
    ensures WaitUntilBurn(deltaAngle, omega).Success? <==> omega != 0.0
    ensures WaitUntilBurn(deltaAngle, omega).Success? ==>
      var c := WaitUntilBurn(deltaAngle, omega).value;
      60.0 * c.minutes as real + c.seconds == deltaAngle / omega && 0.0 <= c.seconds < 60.0
  {
    if omega != 0.0 {
      SplitMinutesRecombines(deltaAngle / omega);
    }
  }

  /** `current_ut() + time_to_angle`: when the manoeuvre node is placed. */
  function NodeEpoch(ut: real, deltaAngle: real, omega: real): Result<real> {
    var t :- Div(deltaAngle, omega);
    Success(ut + t)
  }

  /** For a positive angular velocity and a non-negative angle to travel the
      node is placed no earlier than now, and strictly later when there is an
      angle left to travel. */
  lemma NodeEpochNotBefore(ut: real, deltaAngle: real, omega: real)
    requires 0.0 < omega && 0.0 <= deltaAngle
    ensures NodeEpoch(ut, deltaAngle, omega).Success?
    ensures ut <= NodeEpoch(ut, deltaAngle, omega).value
    ensures 0.0 < deltaAngle ==> ut < NodeEpoch(ut, deltaAngle, omega).value
  {
    if 0.0 < deltaAngle { DivPos(deltaAngle, omega); }
  }
}
