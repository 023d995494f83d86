/** The schedules of the ascent simulation: the pitch program, and the
    thrust, effective specific impulse and mass of the two-stage rocket
    (boosters plus core stage, then core stage alone), and gravity versus
    altitude. Every one is a piecewise formula of a single argument. */
module AscentModel {
  import opened Numerics

  const SIMULATE_TIME: real := 140.0
  const GRAVITY_KERBIN: real := 9.82

  const INITIAL_MASS: real := 379739.0
  const STAGE1_MASS: real := 156859.0

  const SRB_THRUST: real := 678240.0
  const SRB_COUNT: real := 4.0
  const SRB_ISP: real := 225.0
  const SRB_BURN_TIME: real := 105.48

  const STAGE2_THRUST: real := 1000000.0
  const STAGE2_ENGINE_COUNT: real := 2.0
  const STAGE2_ISP: real := 315.0

  const TURN_START_ALTITUDE: real := 1000.0
  const TURN_END_ALTITUDE: real := 45000.0
  const PLANET_RADIUS: real := 600000.0

  /** The stage test every schedule below switches on. */
  predicate BoostersBurning(time: real) { time < SRB_BURN_TIME }

  // ---------------------------------------------------------------------
  // Pitch program

  /** The angle from vertical: none below the turn, a linear turn of 90
      degrees between the two altitudes, and 90 degrees above it. */
  function Alpha(altitude: real): real {
    if altitude < TURN_START_ALTITUDE then 0.0
    else if TURN_START_ALTITUDE <= altitude <= TURN_END_ALTITUDE then
      Radians(90.0 * ((altitude - TURN_START_ALTITUDE) / (TURN_END_ALTITUDE - TURN_START_ALTITUDE)))
    else Radians(90.0)
  }

  /** The pitch angle is always between vertical and horizontal, and is
      exactly those at and beyond the ends of the turn. */
  lemma AlphaRange(altitude: real)
    ensures 0.0 <= Alpha(altitude) <= PI / 2.0
    ensures altitude <= TURN_START_ALTITUDE ==> Alpha(altitude) == 0.0
    ensures TURN_END_ALTITUDE <= altitude ==> Alpha(altitude) == PI / 2.0
  {
    var progress := (altitude - TURN_START_ALTITUDE) / (TURN_END_ALTITUDE - TURN_START_ALTITUDE);
    if TURN_START_ALTITUDE <= altitude <= TURN_END_ALTITUDE {
      assert 0.0 <= progress <= 1.0;
      if altitude == TURN_END_ALTITUDE {
        assert progress == 1.0;
      }
    }
  }

  /** The pitch angle never falls as the rocket climbs. */
  lemma AlphaMonotone(lower: real, upper: real)
    requires lower <= upper
    ensures Alpha(lower) <= Alpha(upper)
  {
    AlphaRange(lower);
    AlphaRange(upper);
    var span := TURN_END_ALTITUDE - TURN_START_ALTITUDE;
    if TURN_START_ALTITUDE <= lower && upper <= TURN_END_ALTITUDE && lower < upper {
      DivLess(lower - TURN_START_ALTITUDE, upper - TURN_START_ALTITUDE, span);
    }
  }

  // ---------------------------------------------------------------------
  // Staged thrust, specific impulse and mass

  const BOOSTED_THRUST: real := SRB_THRUST * SRB_COUNT + STAGE2_THRUST * STAGE2_ENGINE_COUNT
  const CORE_THRUST: real := STAGE2_THRUST * STAGE2_ENGINE_COUNT

  /** The combined thrust of every engine firing at `time`. */
  function ThrustAtTime(time: real): real {
    if BoostersBurning(time) then BOOSTED_THRUST else CORE_THRUST
  }

  /** The thrust-weighted specific impulse of the engines firing at `time`,
      as an exhaust velocity. */
  function EffectiveIsp(time: real): real {
    if BoostersBurning(time) then
      BOOSTED_THRUST / (SRB_THRUST * SRB_COUNT / SRB_ISP + STAGE2_THRUST * STAGE2_ENGINE_COUNT / STAGE2_ISP) * GRAVITY_KERBIN
    else
      CORE_THRUST / (STAGE2_THRUST * STAGE2_ENGINE_COUNT / STAGE2_ISP) * GRAVITY_KERBIN
  }

  /** The mass at `time`: the full rocket burning at the boosted rate, then,
      from burnout on, the core stage burning at its own rate. */
  function MassAtTime(time: real): real {
    if BoostersBurning(time) then
      INITIAL_MASS - BOOSTED_THRUST / EffectiveIsp(time) * time
    else
      STAGE1_MASS - CORE_THRUST / EffectiveIsp(time) * (time - SRB_BURN_TIME)
  }

  /** Thrust is the boosted thrust before burnout and the core thrust from
      then on; it never drops below the core thrust. */
  lemma ThrustStages(before: real, after: real)
    requires before < SRB_BURN_TIME <= after
    ensures ThrustAtTime(before) > ThrustAtTime(after)
    ensures ThrustAtTime(after) == STAGE2_THRUST * STAGE2_ENGINE_COUNT
    ensures forall t :: ThrustAtTime(t) >= STAGE2_THRUST * STAGE2_ENGINE_COUNT
  {
  }

  /** After burnout the specific impulse is exactly the core stage's; before
      it the mixture lies strictly between the boosters' and the core's. */
  lemma EffectiveIspBounds(time: real)
    ensures !BoostersBurning(time) ==> EffectiveIsp(time) == STAGE2_ISP * GRAVITY_KERBIN
    ensures BoostersBurning(time) ==>
      SRB_ISP * GRAVITY_KERBIN < EffectiveIsp(time) < STAGE2_ISP * GRAVITY_KERBIN
  {
  }

  /** The mass schedule starts from the full rocket, and restarts from the
      stage-one mass at burnout. */
  lemma MassAtStageStarts()
    ensures MassAtTime(0.0) == INITIAL_MASS
    ensures MassAtTime(SRB_BURN_TIME) == STAGE1_MASS
  {
  }

  /** Within each stage the rocket gets strictly lighter. */
  lemma MassDecreasing(earlier: real, later: real)
    requires earlier < later
    requires BoostersBurning(earlier) == BoostersBurning(later)
    ensures MassAtTime(later) < MassAtTime(earlier)
  {
  }

  /** The mass stays positive over the whole simulated flight. */
  lemma MassPositive(time: real)
    requires 0.0 <= time <= SIMULATE_TIME
    ensures 0.0 < MassAtTime(time)
  {
    if !BoostersBurning(time) && time < SIMULATE_TIME {
      MassDecreasing(time, SIMULATE_TIME);
    }
  }

  /** The three stage schedules switch together: each is in its booster
      regime exactly when the boosters are burning. */
  lemma StagesSwitchTogether(time: real)
    ensures ThrustAtTime(time) > CORE_THRUST <==> BoostersBurning(time)
    ensures EffectiveIsp(time) < STAGE2_ISP * GRAVITY_KERBIN <==> BoostersBurning(time)
    ensures MassAtTime(time) > STAGE1_MASS <==> BoostersBurning(time)
  {
    EffectiveIspBounds(time);
    if time > SRB_BURN_TIME {
      MassDecreasing(SRB_BURN_TIME, time);
    }
  }

  // ---------------------------------------------------------------------
  // Gravity

  /** Surface gravity scaled by the inverse square of the distance from the
      planet's centre; the division fails at the centre itself. */
  function GravityAtAltitude(altitude: real): Result<real> {
    Div(GRAVITY_KERBIN * Power(PLANET_RADIUS, 2), Power(PLANET_RADIUS + altitude, 2))
  }

  /** Gravity is defined everywhere but at the planet's centre, and at sea
      level it is the surface value. */
  lemma GravityAtSeaLevel(altitude: real)
    ensures GravityAtAltitude(altitude).Success? <==> altitude != -PLANET_RADIUS
    ensures GravityAtAltitude(0.0) == Success(GRAVITY_KERBIN)
  {
    SquareSign(PLANET_RADIUS + altitude);
    assert Power(PLANET_RADIUS + 0.0, 2) == Power(PLANET_RADIUS, 2);
  }

  /** Above sea level gravity is positive and strictly weaker the higher the
      rocket is. */
  lemma GravityDecreasing(lower: real, upper: real)
    requires 0.0 <= lower < upper
    ensures GravityAtAltitude(lower).Success? && GravityAtAltitude(upper).Success?
    ensures 0.0 < GravityAtAltitude(upper).value < GravityAtAltitude(lower).value
  {
    SquareGrows(PLANET_RADIUS + lower, PLANET_RADIUS + upper);
    SquareSign(PLANET_RADIUS + lower);
    SquareSign(PLANET_RADIUS);
    PosMul(GRAVITY_KERBIN, Power(PLANET_RADIUS, 2));
    DivByLarger(GRAVITY_KERBIN * Power(PLANET_RADIUS, 2), Power(PLANET_RADIUS + lower, 2), Power(PLANET_RADIUS + upper, 2));
  }
}
