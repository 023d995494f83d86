# Duna-2020 autopilot core, modelled in Dafny

Duna-2020 is a set of kRPC scripts for Kerbal Space Program. They fly a
two-stage rocket to orbit, wait for the Kerbin–Duna transfer window, and plan
the departure burn. A simulation models the same ascent and is compared with
the recorded flight. This project models the arithmetic and decision rules
under the game traffic, over Dafny `real`, and proves what they promise.

- `numerics.dfy` (`Numerics`): Python's exceptions as a `Result` (`ZeroDivision`,
  `MathDomain`), Python's float division, `math.sqrt`, `math.acos`,
  `math.degrees` and `math.radians`, `x ** n` for whole `n` (`Power`), and real
  arithmetic lemmas. `math.sqrt`, `math.acos`, `math.exp` and `x ** 1.5` are
  parameters: a `Libm` value of four `real -> real` functions. `Lawful(m)`
  gives the laws the proofs use:
  - sqrt and the 1.5 power are 0 at 0, 1 at 1, and increasing;
  - acos has its landmarks −1 ↦ π, 0 ↦ π/2, 1 ↦ 0 and is decreasing;
  - exp is positive and increasing, with exp 0 = 1.

  `SqrtSquares` adds sqrt(x)² = x. It is required separately, by the lemmas
  about angles between vectors and the lemmas built on them. `PI` is
  `math.pi` written as the shortest decimal that rounds to that double.
- `vector_math.dfy` (`VectorMath`): the vector helpers that
  `autopilot/transfer.py` and `autopilot/align_planets.py` both define: length,
  angle between two vectors, and subtraction.
- `transfer.dfy` (`Transfer`): departure planning. This covers:
  - the Hohmann burns;
  - the escape burn and its duration;
  - the exit eccentricity and exit angle;
  - the three-way angle to travel with its conditional extra turn;
  - the minutes/seconds split of the wait;
  - the manoeuvre node's epoch.
- `align_planets.dfy` (`AlignPlanets`): the required phase angle and the time-warp
  controller. The game's warp register is the field `warp` of the class
  `WarpController`. `Step` is one pass of the loop; `Align` is the loop over a
  finite sequence of angle samples. Both are proved against the pure rule
  `Decide` and its fold `Run`.
- `ascent_model.dfy` (`AscentModel`): the simulation's schedules. These are
  the pitch program, the staged thrust, the effective specific impulse, the
  mass, and gravity versus altitude.
- `error_metrics.dfy` (`ErrorMetrics`): the absolute- and percentage-error
  lists, and the arg-max loop `max_percent_error`. That loop is a method,
  proved against the function `PeakError`.
- `launch.dfy` (`Launch`): the ascent script's bookkeeping.
  - The module-level variables are the class `Ascent`: five record lists, the
    clock, the saved flag and the booster flag. Its methods are the bodies of
    the ascent and coast loops, proved against the pure `AscentStep`/`CoastStep`
    and their folds.
  - Also modelled: the throttle ramp, the gravity-turn pitch target, and the
    circularization delta-v.

Telemetry streams are inputs. Each loop pass gets one reading. Commands to the
game are kept as a log in the state: pitch targets, the booster separations in
the ascent and coast loops, and the records file as it was written.

Points where the code does less than its names suggest:

- The angle between two vectors has no clamp and no zero-length guard. A zero
  vector makes Python divide by zero, and the model says so.
- The angle to travel is not kept in [0, 2π). It reaches 1 + 2π in
  `Transfer.DeltaAngleBeyondOneTurn` and is bounded by 3π.
- There is no eccentricity error. For the inputs the script sees, the exit
  angle is always defined.

## Model

| member | source | states |
|---|---|---|
| VectorMath.Length | autopilot/transfer.py:13-14 | the square root of the sum of squared components; no contract of its own, its sign is `LengthSign` |
| VectorMath.AngleBetween | autopilot/transfer.py:17-21 | `acos` of the dot product over the product of the lengths, raising `ZeroDivisionError` or a domain error where Python does; no contract of its own, see `AngleBetweenDefined` and `AngleRange` |
| VectorMath.Subtract | autopilot/transfer.py:24-25 | the componentwise difference is the zero vector exactly when the two vectors are equal |
| VectorMath.SubtractAntisymmetric | autopilot/transfer.py:24-25 | swapping the operands negates the difference |
| VectorMath.LengthSign | autopilot/transfer.py:13-14 | a vector's length is never negative, and is positive exactly off the origin |
| VectorMath.LengthOfZero | autopilot/transfer.py:13-14 | the zero vector has length 0 |
| VectorMath.DotBound | autopilot/transfer.py:13-20 | the dot product is bounded in absolute value by the product of the lengths (Cauchy–Schwarz) |
| VectorMath.MagnitudesSign | autopilot/transfer.py:18-19 | the product of the two lengths is positive exactly when neither vector is zero |
| VectorMath.CosineWithinUnit | autopilot/transfer.py:21 | for non-zero vectors the argument of `acos` lies in [-1, 1] |
| VectorMath.AngleBetweenDefined | autopilot/transfer.py:17-21 | the angle raises `ZeroDivisionError` exactly when a vector is zero, and, over the reals, never a domain error |
| VectorMath.AngleRange | autopilot/transfer.py:17-21 | for non-zero vectors the angle is defined and lies in [0, π] |
| VectorMath.AngleBetweenSymmetric | autopilot/align_planets.py:31-34 | the angle between a and b equals the angle between b and a |
| VectorMath.AngleWithItself | autopilot/transfer.py:17-21 | a non-zero vector makes angle 0 with itself |
| VectorMath.AngleWithOpposite | autopilot/transfer.py:17-21 | a non-zero vector makes angle π with its negation |
| Transfer.HohmannTransfer | autopilot/transfer.py:34-46 | both burns, raising where Python raises in its order of evaluation; no contract of its own, see `HohmannTransferDefined` and the burn-sign lemmas |
| Transfer.EscapeBurn | autopilot/transfer.py:56-61 | escape speed less circular speed; no contract of its own, see `EscapeBurnDefined` and `EscapeBurnPositive` |
| Transfer.BurnTime | autopilot/transfer.py:64-70 | the rocket-equation burn time; no contract of its own, see `BurnTimeSign` |
| Transfer.ExitAngle | autopilot/transfer.py:74-75 | `acos(-1/e)`; no contract of its own, see `ExitAngleRange` |
| Transfer.AngularVelocity | autopilot/transfer.py:79 | `sqrt(mu / a**3)`; no contract of its own, see `AngularVelocityPositive` |
| Transfer.OrbitAngle | autopilot/transfer.py:82-90 | π less the angle between the planet's velocity and the vessel's offset; no contract of its own, see `OrbitAngleRange` |
| Transfer.DeltaAngle | autopilot/transfer.py:94-103 | the three-way angle to travel; no contract of its own, see `DeltaAngleReachesExit`, `DeltaAngleDefined` and `DeltaAngleBounds` |
| Transfer.PhaseAngle | autopilot/transfer.py:105-107 | the angle between the planets in degrees; no contract of its own, see `PhaseAngleRange` |
| Transfer.SplitMinutes | autopilot/transfer.py:114-115 | floor division and modulo by 60; no contract of its own, see `SplitMinutesRecombines` and `SplitMinutesUnique` |
| Transfer.WaitUntilBurn | autopilot/transfer.py:113-115 | the wait split into minutes and seconds; no contract of its own, see `WaitUntilBurnSplits` |
| Transfer.NodeEpoch | autopilot/transfer.py:113-119 | now plus the wait; no contract of its own, see `NodeEpochNotBefore` |
| Transfer.TransferAxisBetween | autopilot/transfer.py:43 | the transfer semi-major axis lies strictly between r1 and r2, and equals both when they are equal |
| Transfer.HohmannTransferDefined | autopilot/transfer.py:34-46 | for positive mu, r1 and r2 the Hohmann computation raises nothing and returns the two burn formulas |
| Transfer.CircularSpeedPositive | autopilot/transfer.py:44-45 | the circular speed sqrt(mu/r) is positive for positive mu and r |
| Transfer.RootRatioSign | autopilot/transfer.py:44-45 | sqrt(r/a) is above, at or below 1 as r is above, at or below a |
| Transfer.GainSign | autopilot/transfer.py:44-45 | both gain factors are positive for r1 < r2, zero for r1 = r2, negative for r1 > r2 |
| Transfer.BurnFactorSign | autopilot/transfer.py:44-45 | with positive circular speeds each burn has the sign of its gain factor |
| Transfer.DepartureBurnSign | autopilot/transfer.py:43-44 | delta_v1 is positive outward, zero between equal orbits, negative inward |
| Transfer.ArrivalBurnSign | autopilot/transfer.py:43-45 | delta_v2 is positive outward, zero between equal orbits, negative inward |
| Transfer.PotentialDropBounds | autopilot/transfer.py:58 | 1/a − 1/soi is non-negative inside the sphere of influence, and at least half of 1/a when 2a ≤ soi |
| Transfer.EscapeEnergyBound | autopilot/transfer.py:56-59 | when 2a ≤ soi and the exit speed is non-zero, the square-root argument exceeds mu/a, the parking orbit's squared speed |
| Transfer.EscapeBurnDefined | autopilot/transfer.py:56-61 | for positive mu and 0 < a ≤ soi the escape delta-v raises nothing |
| Transfer.EscapeBurnPositive | autopilot/transfer.py:56-61 | with a non-zero exit speed and 2a ≤ soi the escape burn is positive |
| Transfer.FinalMassBounds | autopilot/transfer.py:66-68 | a positive delta-v leaves a final mass strictly between 0 and the initial mass; zero delta-v leaves it unchanged |
| Transfer.BurnTimeSign | autopilot/transfer.py:65-70 | with positive mass, thrust and Isp the burn time is defined, positive for positive delta-v and 0 for zero delta-v |
| Transfer.EccentricityAtLeastOne | autopilot/transfer.py:74 | for a ≥ 0 and mu > 0 the eccentricity is at least 1, and is exactly 1 iff a or the exit speed is 0 |
| Transfer.ExitAngleRange | autopilot/transfer.py:74-75 | the exit angle is then always defined and lies in (π/2, π] |
| Transfer.AngularVelocityPositive | autopilot/transfer.py:79 | for positive mu and a the angular velocity is defined and positive |
| Transfer.OrbitAngleRange | autopilot/transfer.py:82-90 | theta = π − angle is defined and lies in [0, π] for a moving planet and a vessel off its centre |
| Transfer.DeltaAngleReachesExit | autopilot/transfer.py:94-103 | while the angle decreases, travelling delta_angle reaches the exit angle, possibly one turn later; otherwise delta_angle and the exit angle complete the turn from theta1 |
| Transfer.DeltaAngleDefined | autopilot/transfer.py:94-103 | the computation raises exactly in the first branch with ω = 0 |
| Transfer.DeltaAngleBounds | autopilot/transfer.py:82-103 | with theta1 and the exit angle in [0, π], delta_angle lies in [0, 3π]; it exceeds 2π only through the added turn, and the added turn makes it at least 2π |
| Transfer.DeltaAngleBeyondOneTurn | autopilot/transfer.py:94-99 | an input where delta_angle is 1 + 2π, beyond one turn |
| Transfer.PhaseAngleRange | autopilot/transfer.py:105-107 | the phase angle between two non-zero positions lies in [0°, 180°] |
| Transfer.SplitMinutesRecombines | autopilot/transfer.py:113-115 | 60·minutes + seconds equals the wait, with seconds in [0, 60) |
| Transfer.SplitMinutesUnique | autopilot/transfer.py:113-115 | that split is the only one with whole minutes and seconds in [0, 60) |
| Transfer.WaitUntilBurnSplits | autopilot/transfer.py:113-115 | the wait is defined exactly for ω ≠ 0, and its minutes and seconds add up to delta_angle/ω |
| Transfer.NodeEpochNotBefore | autopilot/transfer.py:113-119 | for ω > 0 and delta_angle ≥ 0 the node is not placed before now, and strictly after it when delta_angle > 0 |
| AlignPlanets.RequiredPhaseAngle | autopilot/align_planets.py:69-70 | π times (1 − ratio^1.5), raising where Python raises; no contract of its own, see the three lemmas below |
| AlignPlanets.RequiredAngleBetweenEqualOrbits | autopilot/align_planets.py:69-70 | equal axes give ratio 1 and required angle 0 |
| AlignPlanets.RequiredAngleForOutwardTransfer | autopilot/align_planets.py:69-70 | for 0 < a_k < a_d the ratio lies in (0.5, 1) and the required angle in (0, π) |
| AlignPlanets.RequiredAngleFallsAsAxesApproach | autopilot/align_planets.py:69-70 | for a fixed outer axis, a larger inner axis gives a larger ratio and a strictly smaller required angle, so the angle grows as the ratio falls |
| AlignPlanets.Decide | autopilot/align_planets.py:85-106 | the branch one tick takes; no contract of its own, see the `Decide…` lemmas |
| AlignPlanets.Run | autopilot/align_planets.py:75-109 | the loop folded over the samples until it leaves; no contract of its own, see the `Run…` lemmas |
| AlignPlanets.DecideWarpValues | autopilot/align_planets.py:85-106 | a tick leaves the warp as it was or sets it to 0, 5 or 7 |
| AlignPlanets.DecideDoneOnlyWhenAligned | autopilot/align_planets.py:85-97 | a tick leaves the loop iff the angle decreases, the window branch is not taken and the two-decimal renderings agree; it then sets warp 0 and does not sleep |
| AlignPlanets.DecideWindowFirst | autopilot/align_planets.py:90-94 | with the angle decreasing, req° < cur° < 46 and warp ≠ 5, the tick sets warp 5, sleeps and stays in the loop |
| AlignPlanets.DecideNotDecreasing | autopilot/align_planets.py:102-106 | when the angle is not decreasing the tick ends at warp 7 and never leaves the loop |
| AlignPlanets.DecideOutsideWindow | autopilot/align_planets.py:85-101 | while the angle decreases outside the window and the renderings differ, the tick sets warp 7 and sleeps, or keeps 7 without sleeping; it never leaves the loop |
| AlignPlanets.DecideInsideWindowAtNearWarp | autopilot/align_planets.py:85-101 | while the angle decreases inside the window at warp 5 and the renderings differ, the tick keeps warp 5, does not sleep and stays in the loop |
| AlignPlanets.DecideSettlesOnChange | autopilot/align_planets.py:90-106 | a tick that stays in the loop sleeps exactly when it changes the warp, and only to 5 or 7 |
| AlignPlanets.RunStopsOnlyWhenAligned | autopilot/align_planets.py:75-109 | the loop uses every sample unless it aligns, aligning ends at warp 0, and it sleeps at most once a tick |
| AlignPlanets.RunAlignsOnLastTick | autopilot/align_planets.py:75-97 | a run that aligns does so on its last tick, from the warp the earlier ticks left |
| AlignPlanets.RunWarpValues | autopilot/align_planets.py:91-104 | started from 0, 5 or 7, the register only ever holds 0, 5 or 7 |
| AlignPlanets.WarpController.constructor | autopilot/align_planets.py:75 | the controller starts with the game's warp factor |
| AlignPlanets.WarpController.Step | autopilot/align_planets.py:85-106 | one pass updates the register, and reports the sleep and the exit, exactly as `Decide` |
| AlignPlanets.WarpController.Align | autopilot/align_planets.py:75-109 | the loop over the samples leaves register, tick count, exit and sleep count as `Run` |
| AscentModel.Alpha | model_comparison/generate_model_data.py:45-59 | the piecewise pitch program; no contract of its own, see `AlphaRange` and `AlphaMonotone` |
| AscentModel.ThrustAtTime | model_comparison/generate_model_data.py:90-97 | the staged thrust; no contract of its own, see `ThrustStages` |
| AscentModel.EffectiveIsp | model_comparison/generate_model_data.py:62-77 | the thrust-weighted exhaust velocity; no contract of its own, see `EffectiveIspBounds` |
| AscentModel.MassAtTime | model_comparison/generate_model_data.py:80-87 | the staged mass; no contract of its own, see `MassAtStageStarts`, `MassDecreasing` and `MassPositive` |
| AscentModel.GravityAtAltitude | model_comparison/generate_model_data.py:100-105 | inverse-square gravity; no contract of its own, see `GravityAtSeaLevel` and `GravityDecreasing` |
| AscentModel.AlphaRange | model_comparison/generate_model_data.py:45-59 | the pitch angle lies in [0, π/2], is 0 up to 1000 m and π/2 from 45000 m |
| AscentModel.AlphaMonotone | model_comparison/generate_model_data.py:53-57 | the pitch angle never decreases with altitude |
| AscentModel.ThrustStages | model_comparison/generate_model_data.py:90-97 | thrust before burnout exceeds thrust after it, which is the core stage's; thrust is never below the core stage's |
| AscentModel.EffectiveIspBounds | model_comparison/generate_model_data.py:62-77 | after burnout the effective Isp is exactly 315 · 9.82; before it, strictly between 225 · 9.82 and 315 · 9.82 |
| AscentModel.MassAtStageStarts | model_comparison/generate_model_data.py:80-87 | mass(0) is the initial mass and mass(SRB_BURN_TIME) is the stage-one mass |
| AscentModel.MassDecreasing | model_comparison/generate_model_data.py:80-87 | within each stage the mass strictly decreases |
| AscentModel.MassPositive | model_comparison/generate_model_data.py:7-26 | the mass is positive over the whole simulated 140 s |
| AscentModel.StagesSwitchTogether | model_comparison/generate_model_data.py:62-97 | thrust, Isp and mass are each in their booster regime exactly when time < SRB_BURN_TIME |
| AscentModel.GravityAtSeaLevel | model_comparison/generate_model_data.py:100-105 | gravity is defined everywhere except the planet's centre, and is 9.82 at altitude 0 |
| AscentModel.GravityDecreasing | model_comparison/generate_model_data.py:100-105 | above sea level gravity is positive and strictly decreasing in altitude |
| ErrorMetrics.AbsErrors | model_comparison/visualize_results.py:33-36 | the absolute-error list has the shorter input's length, entries ≥ 0, and an entry is 0 iff the two samples agree |
| ErrorMetrics.PercentError | model_comparison/visualize_results.py:43 | one entry of the percent-error list; no contract of its own, see `PercentErrorSign` |
| ErrorMetrics.PercentErrorSign | model_comparison/visualize_results.py:43 | an entry is 0 when m = 0 or m = i, positive when m > 0 and m ≠ i, negative when m < 0 and m ≠ i |
| ErrorMetrics.PercentErrors | model_comparison/visualize_results.py:39-43 | the percent-error list has the shorter input's length, with entries 0 for m = 0 or m = i and positive for m > 0, m ≠ i |
| ErrorMetrics.PercentOfAbsolute | model_comparison/visualize_results.py:33-43 | each percent error is the absolute error at that sample over m, times 100 |
| ErrorMetrics.LastMaxIndex | model_comparison/visualize_results.py:55-59 | the index the `>=` scan ends on lies among the entries scanned |
| ErrorMetrics.PeakError | model_comparison/visualize_results.py:51-61 | the reported (time, percent); no contract of its own, see `PeakErrorIsLargest` |
| ErrorMetrics.LastMaxIndexIsLastMaximum | model_comparison/visualize_results.py:57-59 | the `>=` scan ends on an entry no smaller than any other, and no later entry is as large (ties go to the last) |
| ErrorMetrics.PeakErrorIsLargest | model_comparison/visualize_results.py:55-60 | the reported time and percentage are those of a sample with the largest absolute error, and no later sample's is as large |
| ErrorMetrics.MaxPercentError | model_comparison/visualize_results.py:51-61 | the loop returns `PeakError`, and (0, 0) when there are no samples |
| Launch.ThrottleRamp | autopilot/launch.py:60-62 | the ramp makes 40 settings 1/40, 1/39, …, 1/1, strictly increasing and ending at 1.0 |
| Launch.ThrottleRises | autopilot/launch.py:62 | each setting of the ramp is above the previous one |
| Launch.PitchCommand | autopilot/launch.py:91-93 | the pitch target sent inside the turn, or none; no contract of its own, see `PitchCommandRange` |
| Launch.PitchCommandRange | autopilot/launch.py:91-93 | a pitch target is sent exactly for altitude in (1000, 45000); it lies in (0, 90) and falls as altitude rises |
| Launch.PitchCommandMatchesModel | autopilot/launch.py:91-93 | inside the turn the pitch target is 90° less the simulation's pitch angle in degrees |
| Launch.Start | autopilot/launch.py:68-72 | the state before the ascent loop is consistent: no records, nothing saved, boosters attached |
| Launch.RecordPass | autopilot/launch.py:77-88 | the recording branch of a pass; no contract of its own, see `RecordPassRecords` and `RecordingNeverResumes` |
| Launch.SteerPass | autopilot/launch.py:91-93 | the gravity-turn branch of a pass; no contract of its own, see `AscentStepConsistent` |
| Launch.StagePass | autopilot/launch.py:96-99 | the staging branch of a pass; no contract of its own, see `AscentSeparation` |
| Launch.AscentStep | autopilot/launch.py:77-99 | one pass of the ascent loop; no contract of its own, see `AscentStepConsistent` |
| Launch.CoastStep | autopilot/launch.py:136-138 | one pass of the coast loop; no contract of its own, see `CoastSeparation` |
| Launch.AscentRun | autopilot/launch.py:75 | the ascent loop runs exactly over the leading readings whose apoapsis is below 100 km |
| Launch.CoastRun | autopilot/launch.py:135 | the coast loop runs exactly over the leading readings before the burn's start time |
| Launch.AscentStepConsistent | autopilot/launch.py:77-99 | one ascent pass keeps the five lists in lockstep, the file written once at most and holding the final records, one booster staging at most, and every pitch target in (0, 90) |
| Launch.AscentRunConsistent | autopilot/launch.py:75-101 | the whole ascent loop keeps those invariants |
| Launch.CoastRunConsistent | autopilot/launch.py:134-139 | the coast loop keeps them too, so the boosters are staged off at most once over both loops |
| Launch.RecordingNeverResumes | autopilot/launch.py:77-88 | once the clock is past 140 s the records and the clock never change again, and the first such pass saves the records |
| Launch.RecordedEntries | autopilot/launch.py:79-83 | each recorded entry is its pass's reading: the angle is 90 − pitch and the time is ut − start |
| Launch.AscentRecordsPrefix | autopilot/launch.py:75-88 | the ascent loop records its first passes and only those; if a pass went unrecorded, the clock ends past 140 s and the records are saved |
| Launch.RecordPassRecords | autopilot/launch.py:77-83 | a recording pass appends one entry to each list and keeps the launch epoch |
| Launch.AscentSeparation | autopilot/launch.py:96-99 | the boosters are dropped during the ascent iff they were dropped already or some pass found them empty |
| Launch.CoastSeparation | autopilot/launch.py:136-138 | they are dropped by the end of the coast iff they were dropped already or some coasting pass was at 70 km or higher |
| Launch.Ascent.constructor | autopilot/launch.py:68-72 | the script's variables start as `Start` |
| Launch.Ascent.AscentPass | autopilot/launch.py:77-99 | one pass of the ascent loop changes the variables as `AscentStep` and keeps them consistent |
| Launch.Ascent.Record | autopilot/launch.py:77-88 | the recording branch changes the variables as `RecordPass` |
| Launch.Ascent.Steer | autopilot/launch.py:91-93 | the gravity-turn branch changes them as `SteerPass` |
| Launch.Ascent.Stage | autopilot/launch.py:96-99 | the staging branch changes them as `StagePass` |
| Launch.Ascent.Ascend | autopilot/launch.py:75-101 | the ascent loop ends in the state and pass count of `AscentRun` |
| Launch.Ascent.CoastPass | autopilot/launch.py:136-138 | one pass of the coast loop changes the variables as `CoastStep` |
| Launch.Ascent.Coast | autopilot/launch.py:134-139 | the coast loop ends in the state and pass count of `CoastRun` |
| Launch.VisViva | autopilot/launch.py:113-114 | the vis-viva speed, raising where Python raises; no contract of its own, see `CircularizationPrograde` |
| Launch.CircularizationDeltaV | autopilot/launch.py:109-115 | v2 − v1; no contract of its own, see `CircularizationPrograde` |
| Launch.EnergyTermSign | autopilot/launch.py:113-114 | for 0 < a1 ≤ r, 2/r − 1/a1 is at most its value on the circle, which is positive, and is ≥ 0 iff r ≤ 2·a1 |
| Launch.CircularizationPrograde | autopilot/launch.py:109-115 | for mu > 0 and 0 < a1 ≤ r the burn is defined iff r ≤ 2·a1, and then delta_v = v2 − v1 ≥ 0 |

## Left out

- All kRPC traffic is outside the model: the connection, streams, staging,
  SAS/RCS/autopilot calls, node creation and target selection. Stream values
  are inputs, and commands are logged in the state.
- `time.sleep` is not modelled as time. In the warp controller a five-second
  sleep is the `settle` flag.
- The `print` messages are left out.
- The pre-launch countdown is left out.
- `autopilot/landing.py` is left out. It is a fixed sequence of waits on
  altitude streams and staging, with nothing computed.
- Floating point is left out: the model computes over exact reals, with no
  rounding and no overflow. `math.exp` raising `OverflowError` for a large
  argument is not modelled, and neither is `exp` underflowing to 0.
- `math.sqrt`, `math.acos`, `math.exp` and `x ** 1.5` are uninterpreted
  parameters with the laws above.
- Python's `x ** 1.5` of a negative ratio is complex, and `math.degrees`
  raises `TypeError` for it on the next line. The model files that failure
  under `MathDomain`.
- `AlignPlanets.Decide`: the two-decimal rendering `f"{x:.2f}"` is a
  parameter. Nothing is proved about decimal rendering.
- `AlignPlanets.WarpController.Align`: the source loop is unbounded and ends
  only when alignment comes, which depends on the ephemeris. The model runs
  over a finite sequence of samples, and termination of the real loop is not
  modelled.
- `AlignPlanets.Decide`: the three angle readings of a tick
  (autopilot/align_planets.py:77, 80 and 82) are plain numbers in `Sample`. Each
  call of `calculate_angle_between_vectors` raises `ZeroDivisionError` when a
  planet's position is the zero vector, and that exit from the loop is not
  modelled; `VectorMath.AngleBetweenDefined` states when it happens.
- Each pass of the ascent loop is modelled with one reading per stream.
  Python reads the altitude stream three times per pass
  (autopilot/launch.py:80, 91 and 92). The model takes those reads to be
  equal.
- `warp_start_time` at autopilot/transfer.py:134 is never used, and is left
  out.
- Circularization burn time: the burn time at autopilot/launch.py:124-130 is
  the same rocket-equation formula as `Transfer.BurnTime`. It is not modelled
  a second time.
- The simulation itself is left out:
  - `drag_force` and `system_equations` use `np.exp`, `np.cos` and `np.sin`;
  - the `solve_ivp` integration;
  - `np.interp`;
  - plotting;
  - JSON and directory I/O.

  These are foreign numerical libraries and I/O.
- `save_flight_data` is modelled as logging the records it writes, not as a
  file.
- `Launch.CircularizationPrograde`: it proves `delta_v ≥ 0` only where both
  square roots are defined. For an apoapsis radius beyond twice the
  semi-major axis the vis-viva radicand is negative, since no orbit with that
  axis reaches that radius. There Python raises `ValueError`, and the lemma
  says the computation fails.
