/** autopilot/align_planets.py: the phase angle a Hohmann transfer from the
    inner planet needs, and the time-warp controller that waits for it.

    The controller is a register, the game's rails warp factor, that the
    script's `while True` loop rewrites tick by tick. Each tick reads three
    angles between the two planets' positions: the phase angle, then a
    "previous" and a "current" angle a moment apart. The model receives these
    readings as a finite sequence of samples; the game, the sleeps and the
    messages are outside it, and a five-second sleep after a warp change is
    reported as a `settle` flag. */
module AlignPlanets {
  import opened Numerics

  // ---------------------------------------------------------------------
  // The required phase angle (lines 67-70)

  /** `transfer_time_ratio = 0.5 * a_k / a_d + 0.5`: the transfer orbit's
      semi-major axis over the outer orbit's. */
  function TransferTimeRatio(innerAxis: real, outerAxis: real): real
    requires outerAxis != 0.0
  {
    0.5 * innerAxis / outerAxis + 0.5
  }

  /** `1 - transfer_time_ratio ** (3 / 2)`: the part of the outer planet's
      half-turn it does not cover while the vessel is in transit. */
  function LeadFraction(m: Libm, ratio: real): real {
    1.0 - m.pow15(ratio)
  }

  /** `required_phase_angle = math.pi * (1 - transfer_time_ratio ** (3/2))`,
      in radians. A zero outer axis raises `ZeroDivisionError`; a negative
      ratio makes Python's power complex, which the next line's
      `math.degrees` rejects, and is reported here as a domain error. */
  function RequiredPhaseAngle(m: Libm, innerAxis: real, outerAxis: real): Result<real> {
    if outerAxis == 0.0 then Failure(ZeroDivision)
    else if TransferTimeRatio(innerAxis, outerAxis) < 0.0 then Failure(MathDomain)
    else Success(PI * LeadFraction(m, TransferTimeRatio(innerAxis, outerAxis)))
  }

  /** The ratio regrouped as a half of the axes' quotient plus a half, the
      form the lemmas below reason with. */
  lemma RatioOfQuotient(innerAxis: real, outerAxis: real)
    requires outerAxis != 0.0
    ensures TransferTimeRatio(innerAxis, outerAxis) == 0.5 * (innerAxis / outerAxis) + 0.5
  {
    DivIdentity(innerAxis, outerAxis);
    DivIdentity(0.5 * innerAxis, outerAxis);
    MulCancel(0.5 * innerAxis / outerAxis, 0.5 * (innerAxis / outerAxis), outerAxis);
  }

  /** Between equal orbits the ratio is 1 and no phase angle is needed. */
  lemma RequiredAngleBetweenEqualOrbits(m: Libm, innerAxis: real, outerAxis: real)
    requires Lawful(m) && innerAxis == outerAxis && outerAxis != 0.0
    ensures TransferTimeRatio(innerAxis, outerAxis) == 1.0
    ensures RequiredPhaseAngle(m, innerAxis, outerAxis) == Success(0.0)
  {
    RatioOfQuotient(innerAxis, outerAxis);
    QuotientCongruence(innerAxis, outerAxis, outerAxis, outerAxis);
    DivByItself(outerAxis);
    Pow15AtOne(m, TransferTimeRatio(innerAxis, outerAxis));
  }

  /** For an inner orbit inside a larger outer one the ratio lies in
      (0.5, 1), so the required angle lies in (0, PI). */
  lemma RequiredAngleForOutwardTransfer(m: Libm, innerAxis: real, outerAxis: real)
    requires Lawful(m) && 0.0 < innerAxis < outerAxis
    ensures 0.5 < TransferTimeRatio(innerAxis, outerAxis) < 1.0
    ensures RequiredPhaseAngle(m, innerAxis, outerAxis).Success?
    ensures 0.0 < RequiredPhaseAngle(m, innerAxis, outerAxis).value < PI
  {
    RatioOfQuotient(innerAxis, outerAxis);
    DivPos(innerAxis, outerAxis);
    DivBelowOne(innerAxis, outerAxis);
    Pow15Between(m, TransferTimeRatio(innerAxis, outerAxis));
    WithinPi(LeadFraction(m, TransferTimeRatio(innerAxis, outerAxis)));
  }

  /** The closer the inner orbit's axis comes to the outer one's, the larger
      the ratio and the smaller the required angle: the angle grows as the
      ratio falls. */
  lemma RequiredAngleFallsAsAxesApproach(m: Libm, innerAxis: real, closerAxis: real, outerAxis: real)
    requires Lawful(m) && 0.0 < innerAxis < closerAxis && 0.0 < outerAxis
    ensures TransferTimeRatio(innerAxis, outerAxis) < TransferTimeRatio(closerAxis, outerAxis)
    ensures RequiredPhaseAngle(m, innerAxis, outerAxis).Success?
    ensures RequiredPhaseAngle(m, closerAxis, outerAxis).Success?
    ensures RequiredPhaseAngle(m, closerAxis, outerAxis).value < RequiredPhaseAngle(m, innerAxis, outerAxis).value
  {
    RatioOfQuotient(innerAxis, outerAxis);
    RatioOfQuotient(closerAxis, outerAxis);
    DivPos(innerAxis, outerAxis);
    DivLess(innerAxis, closerAxis, outerAxis);
    var r1, r2 := TransferTimeRatio(innerAxis, outerAxis), TransferTimeRatio(closerAxis, outerAxis);
    assert m.pow15(r1) < m.pow15(r2);
  }

  // ---------------------------------------------------------------------
  // The warp decision of one tick (lines 77-106)

  /** The three angle readings of one pass through the loop (lines 77, 80
      and 82), in radians. */
  datatype Sample = Sample(phaseAngle: real, previousAngle: real, currentAngle: real)

  /** The warp factor after a tick, whether the tick sleeps five seconds to
      let the warp settle, and whether it leaves the loop. */
  datatype Decision = Decision(warp: int, settle: bool, done: bool)

  /** The warp factor inside and outside the approach window, and when
      aligned. */
  const NEAR_WARP: int := 5
  const FAR_WARP: int := 7
  const STOPPED_WARP: int := 0

  /** The upper edge of the approach window, in degrees. */
  const WINDOW_EDGE: real := 46.0

  /** `required_phase_angle_deg < current_phase_angle_deg < 46` */
  predicate InWindow(requiredDeg: real, currentDeg: real) {
    requiredDeg < currentDeg < WINDOW_EDGE
  }

  /** The branch the loop body takes for the warp factor `warp`, the tick's
      readings and the required angle in radians. `format2` is Python's
      `f"{x:.2f}"`, a parameter of the model. */
  function Decide(warp: int, s: Sample, required: real, format2: real -> string): Decision {
    if s.previousAngle > s.currentAngle then
      var currentDeg, requiredDeg := Degrees(s.phaseAngle), Degrees(required);
      if InWindow(requiredDeg, currentDeg) && warp != NEAR_WARP then
        Decision(NEAR_WARP, true, false)
      else if format2(currentDeg) == format2(requiredDeg) then
        Decision(STOPPED_WARP, false, true)
      else if !InWindow(requiredDeg, currentDeg) && warp != FAR_WARP then
        Decision(FAR_WARP, true, false)
      else
        Decision(warp, false, false)
    else if warp != FAR_WARP then
      Decision(FAR_WARP, true, false)
    else
      Decision(warp, false, false)
  }

  /** The register is only ever assigned 0, 5 or 7. */
  lemma DecideWarpValues(warp: int, s: Sample, required: real, format2: real -> string)
    ensures var d := Decide(warp, s, required, format2);
      d.warp == warp || d.warp in {STOPPED_WARP, NEAR_WARP, FAR_WARP}
  {
  }

  /** A tick leaves the loop exactly when the angle is decreasing, the
      window branch is not taken and the two-decimal renderings of the
      current and required angles agree; it then stops the warp and does not
      sleep. */
  lemma DecideDoneOnlyWhenAligned(warp: int, s: Sample, required: real, format2: real -> string)
    ensures var d := Decide(warp, s, required, format2);
      var currentDeg, requiredDeg := Degrees(s.phaseAngle), Degrees(required);
      && (d.done <==> s.previousAngle > s.currentAngle
                      && !(InWindow(requiredDeg, currentDeg) && warp != NEAR_WARP)
                      && format2(currentDeg) == format2(requiredDeg))
      && (d.done ==> d.warp == STOPPED_WARP && !d.settle)
  {
  }

  /** Entering the window takes precedence over alignment: the tick sets
      warp 5 and stays in the loop even when the renderings agree. */
  lemma DecideWindowFirst(warp: int, s: Sample, required: real, format2: real -> string)
    requires s.previousAngle > s.currentAngle
    requires InWindow(Degrees(required), Degrees(s.phaseAngle)) && warp != NEAR_WARP
    ensures Decide(warp, s, required, format2) == Decision(NEAR_WARP, true, false)
  {
  }

  /** While the angle is not decreasing the tick ends at warp 7 and never
      leaves the loop. */
  lemma DecideNotDecreasing(warp: int, s: Sample, required: real, format2: real -> string)
    requires s.previousAngle <= s.currentAngle
    ensures Decide(warp, s, required, format2).warp == FAR_WARP
    ensures !Decide(warp, s, required, format2).done
  {
  }

  /** A tick that stays in the loop sleeps exactly when it changes the warp,
      and then the new warp is 5 or 7. */
  lemma DecideSettlesOnChange(warp: int, s: Sample, required: real, format2: real -> string)
    ensures var d := Decide(warp, s, required, format2);
      && (!d.done ==> (d.settle <==> d.warp != warp))
      && (d.settle ==> d.warp == NEAR_WARP || d.warp == FAR_WARP)
  {
  }

  /** While the angle is decreasing outside the window and the renderings
      differ, the tick speeds up to warp 7, or keeps 7 without sleeping. */
  lemma DecideOutsideWindow(warp: int, s: Sample, required: real, format2: real -> string)
    requires s.previousAngle > s.currentAngle
    requires !InWindow(Degrees(required), Degrees(s.phaseAngle))
    requires format2(Degrees(s.phaseAngle)) != format2(Degrees(required))
    ensures Decide(warp, s, required, format2)
      == if warp != FAR_WARP then Decision(FAR_WARP, true, false) else Decision(warp, false, false)
  {
  }

  /** Inside the window at warp 5 a tick whose renderings differ keeps warp 5
      and neither sleeps nor leaves the loop. */
  lemma DecideInsideWindowAtNearWarp(s: Sample, required: real, format2: real -> string)
    requires s.previousAngle > s.currentAngle
    requires InWindow(Degrees(required), Degrees(s.phaseAngle))
    requires format2(Degrees(s.phaseAngle)) != format2(Degrees(required))
    ensures Decide(NEAR_WARP, s, required, format2) == Decision(NEAR_WARP, false, false)
  {
  }

  // ---------------------------------------------------------------------
  // The loop over a finite run of samples (lines 75-109)

  /** What a run of the loop over some samples ends with: the register, the
      number of ticks taken, whether it left through the alignment branch
      and how many settling sleeps it made. */
  datatype Outcome = Outcome(warp: int, ticks: nat, aligned: bool, settles: nat)

  /** The loop from warp factor `warp` over `samples`, stopping at the
      first tick that leaves it. */
  function Run(warp: int, samples: seq<Sample>, required: real, format2: real -> string): Outcome
    decreases |samples|
  {
    if |samples| == 0 then Outcome(warp, 0, false, 0)
    else
      var d := Decide(warp, samples[0], required, format2);
      if d.done then Outcome(d.warp, 1, true, 0)
      else
        var rest := Run(d.warp, samples[1..], required, format2);
        Outcome(rest.warp, rest.ticks + 1, rest.aligned, rest.settles + (if d.settle then 1 else 0))
  }

  /** The loop runs through every sample unless it aligns, and then ends on
      warp 0; it sleeps at most once a tick. */
  lemma {:induction false} RunStopsOnlyWhenAligned(warp: int, samples: seq<Sample>, required: real, format2: real -> string)
    ensures var r := Run(warp, samples, required, format2);
      && r.settles <= r.ticks <= |samples|
      && (!r.aligned ==> r.ticks == |samples|)
      && (r.aligned ==> 1 <= r.ticks && r.warp == STOPPED_WARP)
    decreases |samples|
  {
    if |samples| > 0 {
      var d := Decide(warp, samples[0], required, format2);
      if !d.done {
        RunStopsOnlyWhenAligned(d.warp, samples[1..], required, format2);
      }
    }
  }

  /** A run that aligns does so on its last tick, from the warp the ticks
      before it left. */
  lemma {:induction false} RunAlignsOnLastTick(warp: int, samples: seq<Sample>, required: real, format2: real -> string)
    requires Run(warp, samples, required, format2).aligned
    ensures var n := Run(warp, samples, required, format2).ticks;
      && 1 <= n <= |samples|
      && Decide(Run(warp, samples[..n - 1], required, format2).warp, samples[n - 1], required, format2).done
    decreases |samples|
  {
    RunStopsOnlyWhenAligned(warp, samples, required, format2);
    var d := Decide(warp, samples[0], required, format2);
    if d.done {
      assert samples[..0] == [];
    } else {
      var rest := samples[1..];
      RunAlignsOnLastTick(d.warp, rest, required, format2);
      var n := Run(d.warp, rest, required, format2).ticks;
      RunPrefix(warp, samples, n - 1, required, format2);
      assert samples[n] == rest[n - 1];
    }
  }

  /** The register after a prefix of the samples in which the loop did not
      leave on the first tick: the warp after the first tick, then the rest
      of the prefix. */
  lemma RunPrefix(warp: int, samples: seq<Sample>, n: nat, required: real, format2: real -> string)
    requires n < |samples|
    requires !Decide(warp, samples[0], required, format2).done
    ensures Run(warp, samples[..n + 1], required, format2).warp
         == Run(Decide(warp, samples[0], required, format2).warp, samples[1..][..n], required, format2).warp
  {
    assert samples[..n + 1][0] == samples[0];
    assert samples[..n + 1][1..] == samples[1..][..n];
  }

  /** Started from 0, 5 or 7, the register holds 0, 5 or 7 after any run. */
  lemma {:induction false} RunWarpValues(warp: int, samples: seq<Sample>, required: real, format2: real -> string)
    requires warp in {STOPPED_WARP, NEAR_WARP, FAR_WARP}
    ensures Run(warp, samples, required, format2).warp in {STOPPED_WARP, NEAR_WARP, FAR_WARP}
    decreases |samples|
  {
    if |samples| > 0 {
      var d := Decide(warp, samples[0], required, format2);
      DecideWarpValues(warp, samples[0], required, format2);
      if !d.done {
        RunWarpValues(d.warp, samples[1..], required, format2);
      }
    }
  }

  /** The game's rails warp factor, the one register the loop rewrites. */
  class WarpController {
    var warp: int

    constructor(initialWarp: int)
      ensures warp == initialWarp
    {
      warp := initialWarp;
    }

    /** One pass through the loop body. */
    method Step(s: Sample, required: real, format2: real -> string) returns (settle: bool, done: bool)
      modifies this
      ensures Decision(warp, settle, done) == Decide(old(warp), s, required, format2)
    {
      settle, done := false, false;
      if s.previousAngle > s.currentAngle {
        var currentDeg := Degrees(s.phaseAngle);
        var requiredDeg := Degrees(required);
        if InWindow(requiredDeg, currentDeg) && warp != NEAR_WARP {
          warp := NEAR_WARP;
          settle := true;
        } else if format2(currentDeg) == format2(requiredDeg) {
          warp := STOPPED_WARP;
          done := true;
        } else if !InWindow(requiredDeg, currentDeg) && warp != FAR_WARP {
          warp := FAR_WARP;
          settle := true;
        }
      } else {
        if warp != FAR_WARP {
          warp := FAR_WARP;
          settle := true;
        }
      }
    }

    /** The `while True` loop over the samples at hand, leaving through the
        alignment branch's `break`. */
    method Align(samples: seq<Sample>, required: real, format2: real -> string)
      returns (ticks: nat, aligned: bool, settles: nat)
      modifies this
      ensures Outcome(warp, ticks, aligned, settles) == Run(old(warp), samples, required, format2)
    {
      ticks, aligned, settles := 0, false, 0;
      while ticks < |samples| && !aligned
        invariant ticks <= |samples|
        invariant var rest := Run(warp, samples[ticks..], required, format2);
          !aligned ==> Run(old(warp), samples, required, format2)
                       == Outcome(rest.warp, ticks + rest.ticks, rest.aligned, settles + rest.settles)
        invariant aligned ==> Run(old(warp), samples, required, format2) == Outcome(warp, ticks, true, settles)
        decreases |samples| - ticks
      {
        assert samples[ticks..][1..] == samples[ticks + 1..];
        var settle, done := Step(samples[ticks], required, format2);
        ticks := ticks + 1;
        if settle { settles := settles + 1; }
        aligned := done;
      }
    }
  }
}
