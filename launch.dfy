/** autopilot/launch.py: the ascent script's own bookkeeping around the game.

    The script keeps its state in module-level variables: five lists that
    record the flight, the clock since launch, a flag that the records were
    written out and a flag that the boosters were dropped. Here that state is
    the class `Ascent`. Each pass through the ascent loop and the coast loop
    reads the game's telemetry streams; the model receives those readings
    as finite sequences, one reading per pass. What the script sends back to
    the game (pitch targets, stage activations, the records file) is kept
    as a log in the state. */
module Launch {
  import opened Numerics
  import AscentModel

  const RECORD_TIME: real := 140.0
  const TURN_START_ALTITUDE: real := 1000.0
  const TURN_END_ALTITUDE: real := 45000.0
  const TARGET_APOAPSIS: real := 100000.0
  const COAST_STAGING_ALTITUDE: real := 70000.0

  // ---------------------------------------------------------------------
  // Throttle ramp (lines 60-62)

  /** The ramp `for i in range(40, 0, -1): throttle = 1.0 / i`, as the list
      of throttle settings it makes, in order. */
  method ThrottleRamp() returns (settings: seq<real>)
    ensures |settings| == 40
    ensures forall k :: 0 <= k < 40 ==> settings[k] == 1.0 / (40 - k) as real
    ensures forall j, k :: 0 <= j < k < 40 ==> settings[j] < settings[k]
    ensures settings[39] == 1.0
  {
    settings := [];
    var i := 40;
    while i > 0
      invariant 0 <= i <= 40
      invariant |settings| == 40 - i
      invariant forall k :: 0 <= k < |settings| ==> settings[k] == 1.0 / (40 - k) as real
      invariant forall j, k :: 0 <= j < k < |settings| ==> settings[j] < settings[k]
    {
      if 0 < |settings| {
        ThrottleRises(settings[|settings| - 1], i + 1, i);
      }
      settings := settings + [1.0 / i as real];
      i := i - 1;
    }
  }

  /** Each setting of the ramp is above the one before. */
  lemma ThrottleRises(previous: real, before: int, now: int)
    requires 0 < now < before && previous == 1.0 / before as real
    ensures previous < 1.0 / now as real
  {
    DivByLarger(1.0, now as real, before as real);
  }

  // ---------------------------------------------------------------------
  // Gravity turn (lines 90-93)

  /** The pitch target set at `altitude`: none outside the turn, and within
      it 90 degrees less the turn's progress times 90. */
  function PitchCommand(altitude: real): Option<real> {
    if TURN_START_ALTITUDE < altitude < TURN_END_ALTITUDE then
      var frac := (altitude - TURN_START_ALTITUDE) / (TURN_END_ALTITUDE - TURN_START_ALTITUDE);
      Some(90.0 - frac * 90.0)
    else None
  }

  /** A pitch target is set exactly inside the turn, strictly between
      horizontal and vertical, and lower the higher the rocket is. */
  lemma PitchCommandRange(altitude: real, higher: real)
    ensures PitchCommand(altitude).Some? <==> TURN_START_ALTITUDE < altitude < TURN_END_ALTITUDE
    ensures PitchCommand(altitude).Some? ==> 0.0 < PitchCommand(altitude).value < 90.0
    ensures altitude < higher && PitchCommand(altitude).Some? && PitchCommand(higher).Some?
      ==> PitchCommand(higher).value < PitchCommand(altitude).value
  {
    var span := TURN_END_ALTITUDE - TURN_START_ALTITUDE;
    if TURN_START_ALTITUDE < altitude < TURN_END_ALTITUDE {
      DivPos(altitude - TURN_START_ALTITUDE, span);
      DivBelowOne(altitude - TURN_START_ALTITUDE, span);
      if altitude < higher {
        DivLess(altitude - TURN_START_ALTITUDE, higher - TURN_START_ALTITUDE, span);
      }
    }
  }

  /** Inside the turn the script's pitch target is the simulation's pitch
      program read from the horizon: 90 degrees less its angle from
      vertical. */
  lemma PitchCommandMatchesModel(altitude: real)
    requires TURN_START_ALTITUDE < altitude < TURN_END_ALTITUDE
    ensures PitchCommand(altitude) == Some(90.0 - Degrees(AscentModel.Alpha(altitude)))
  {
  }

  // ---------------------------------------------------------------------
  // The ascent and coast loops (lines 67-101, 132-139)

  /** What one pass of the ascent loop reads from the game's streams. */
  datatype AscentReading = AscentReading(
    apoapsis: real, ut: real, speed: real, altitude: real, pitch: real, mass: real, srbFuel: real)

  /** What one pass of the coast loop reads. */
  datatype CoastReading = CoastReading(ut: real, altitude: real)

  /** The five record lists. */
  datatype Records = Records(speed: seq<real>, altitude: seq<real>, angle: seq<real>, mass: seq<real>, time: seq<real>)

  /** The script's state: the records, the launch epoch and the clock since
      launch, the records files written, the booster flag with the number of
      stage activations it guarded, and the pitch targets sent. */
  datatype Flight = Flight(
    records: Records, startTime: real, currentTime: real,
    isDataSaved: bool, written: seq<Records>,
    srbSeparated: bool, separations: nat,
    pitchCommands: seq<real>)

  /** The entries one recorded pass adds: the angle from the horizon as 90
      degrees less the pitch, and the time since launch. */
  function Row(r: AscentReading, startTime: real): Records {
    Records([r.speed], [r.altitude], [90.0 - r.pitch], [r.mass], [r.ut - startTime])
  }

  /** The records of `later` appended, list by list, to those of `earlier`. */
  function Concat(earlier: Records, later: Records): Records {
    Records(earlier.speed + later.speed, earlier.altitude + later.altitude, earlier.angle + later.angle,
            earlier.mass + later.mass, earlier.time + later.time)
  }

  /** The records made by one pass for each of `rs`, in order. */
  function Recorded(rs: seq<AscentReading>, startTime: real): Records
    decreases |rs|
  {
    if |rs| == 0 then Records([], [], [], [], [])
    else Concat(Row(rs[0], startTime), Recorded(rs[1..], startTime))
  }

  /** The records have one entry per list for every recorded pass. */
  predicate InLockstep(r: Records) {
    && |r.altitude| == |r.speed|
    && |r.angle| == |r.speed|
    && |r.mass| == |r.speed|
    && |r.time| == |r.speed|
  }

  /** The invariants the two loops keep: the lists in lockstep; the records
      file written once at most, and then holding the records, which no
      longer change because the clock is past the recording time; the
      boosters staged off once at most; every pitch target inside (0, 90). */
  predicate Consistent(f: Flight) {
    && InLockstep(f.records)
    && f.written == (if f.isDataSaved then [f.records] else [])
    && (f.isDataSaved ==> RECORD_TIME < f.currentTime)
    && f.separations == (if f.srbSeparated then 1 else 0)
    && forall k :: 0 <= k < |f.pitchCommands| ==> 0.0 < f.pitchCommands[k] < 90.0
  }

  /** The script's state just before the ascent loop. */
  function Start(startTime: real, ut: real): (f: Flight)
    ensures Consistent(f)
    ensures |f.records.speed| == 0 && !f.isDataSaved && !f.srbSeparated
  {
    Flight(Records([], [], [], [], []), startTime, ut - startTime, false, [], false, 0, [])
  }

  /** Lines 77-88: record while the clock is within the recording time,
      refreshing the clock; past it, write the records out if not yet done. */
  function RecordPass(f: Flight, r: AscentReading): Flight {
    if f.currentTime <= RECORD_TIME then
      f.(currentTime := r.ut - f.startTime, records := Concat(f.records, Row(r, f.startTime)))
    else if !f.isDataSaved then f.(isDataSaved := true, written := f.written + [f.records])
    else f
  }

  /** Lines 91-93: send a pitch target inside the turn. */
  function SteerPass(f: Flight, altitude: real): Flight {
    if PitchCommand(altitude).Some? then f.(pitchCommands := f.pitchCommands + [PitchCommand(altitude).value])
    else f
  }

  /** Lines 96-99: drop the boosters once they are found empty. */
  function StagePass(f: Flight, srbFuel: real): Flight {
    if !f.srbSeparated && srbFuel <= 0.0 then f.(srbSeparated := true, separations := f.separations + 1)
    else f
  }

  /** One pass of the ascent loop. */
  function AscentStep(f: Flight, r: AscentReading): Flight {
    StagePass(SteerPass(RecordPass(f, r), r.altitude), r.srbFuel)
  }

  /** One pass of the coast loop: drop the boosters above 70 km if that was
      not done during the ascent. */
  function CoastStep(f: Flight, c: CoastReading): Flight {
    if c.altitude >= COAST_STAGING_ALTITUDE && !f.srbSeparated then
      f.(srbSeparated := true, separations := f.separations + 1)
    else f
  }

  /** Where a loop ends and after how many passes. */
  datatype Run = Run(flight: Flight, passes: nat)

  /** The ascent loop, which runs while the apoapsis is below the target. */
  function AscentRun(f: Flight, rs: seq<AscentReading>): (run: Run)
    ensures run.passes <= |rs|
    ensures forall k :: 0 <= k < run.passes ==> rs[k].apoapsis < TARGET_APOAPSIS
    ensures run.passes < |rs| ==> rs[run.passes].apoapsis >= TARGET_APOAPSIS
    decreases |rs|
  {
    if |rs| == 0 || rs[0].apoapsis >= TARGET_APOAPSIS then Run(f, 0)
    else
      var rest := AscentRun(AscentStep(f, rs[0]), rs[1..]);
      Run(rest.flight, rest.passes + 1)
  }

  /** The coast loop, which runs until the burn's start time. */
  function CoastRun(f: Flight, burnStart: real, cs: seq<CoastReading>): (run: Run)
    ensures run.passes <= |cs|
    ensures forall k :: 0 <= k < run.passes ==> burnStart - cs[k].ut > 0.0
    ensures run.passes < |cs| ==> !(burnStart - cs[run.passes].ut > 0.0)
    decreases |cs|
  {
    if |cs| == 0 || !(burnStart - cs[0].ut > 0.0) then Run(f, 0)
    else
      var rest := CoastRun(CoastStep(f, cs[0]), burnStart, cs[1..]);
      Run(rest.flight, rest.passes + 1)
  }

  /** One ascent pass keeps the invariants. */
  lemma AscentStepConsistent(f: Flight, r: AscentReading)
    requires Consistent(f)
    ensures Consistent(AscentStep(f, r))
  {
    if PitchCommand(r.altitude).Some? {
      PitchCommandRange(r.altitude, r.altitude);
    }
  }

  /** The whole ascent loop keeps the invariants. */
  lemma {:induction false} AscentRunConsistent(f: Flight, rs: seq<AscentReading>)
    requires Consistent(f)
    ensures Consistent(AscentRun(f, rs).flight)
    decreases |rs|
  {
    if |rs| > 0 && rs[0].apoapsis < TARGET_APOAPSIS {
      AscentStepConsistent(f, rs[0]);
      AscentRunConsistent(AscentStep(f, rs[0]), rs[1..]);
    }
  }

  /** The whole coast loop keeps the invariants, so the boosters are staged
      off once at most over both loops together. */
  lemma {:induction false} CoastRunConsistent(f: Flight, burnStart: real, cs: seq<CoastReading>)
    requires Consistent(f)
    ensures Consistent(CoastRun(f, burnStart, cs).flight)
    ensures CoastRun(f, burnStart, cs).flight.separations <= 1
    decreases |cs|
  {
    if |cs| > 0 && burnStart - cs[0].ut > 0.0 {
      CoastRunConsistent(CoastStep(f, cs[0]), burnStart, cs[1..]);
    }
  }

  /** Once the clock is past the recording time, the records and the clock
      never change again, and the first pass writes the records out. */
  lemma {:induction false} RecordingNeverResumes(f: Flight, rs: seq<AscentReading>)
    requires RECORD_TIME < f.currentTime
    ensures AscentRun(f, rs).flight.records == f.records
    ensures AscentRun(f, rs).flight.currentTime == f.currentTime
    ensures 0 < AscentRun(f, rs).passes ==> AscentRun(f, rs).flight.isDataSaved
    decreases |rs|
  {
    if |rs| > 0 && rs[0].apoapsis < TARGET_APOAPSIS {
      RecordingNeverResumes(AscentStep(f, rs[0]), rs[1..]);
    }
  }

  /** Each recorded entry is its pass's reading: the angle as 90 degrees
      less the pitch, the time as the clock less the launch epoch. */
  lemma {:induction false} RecordedEntries(rs: seq<AscentReading>, startTime: real)
    ensures var g := Recorded(rs, startTime);
      && InLockstep(g) && |g.speed| == |rs|
      && forall k :: 0 <= k < |rs| ==>
           && g.speed[k] == rs[k].speed && g.altitude[k] == rs[k].altitude
           && g.angle[k] == 90.0 - rs[k].pitch && g.mass[k] == rs[k].mass
           && g.time[k] == rs[k].ut - startTime
    decreases |rs|
  {
    if |rs| > 0 {
      RecordedEntries(rs[1..], startTime);
    }
  }

  /** The ascent loop records the first passes it makes, and only those;
      when some pass went unrecorded, the clock ended past the recording
      time with the records written out. */
  lemma {:induction false} AscentRecordsPrefix(f: Flight, rs: seq<AscentReading>)
    ensures var g := AscentRun(f, rs);
      var n := |g.flight.records.speed| - |f.records.speed|;
      && 0 <= n <= g.passes
      && g.flight.records == Concat(f.records, Recorded(rs[..n], f.startTime))
      && (n < g.passes ==> RECORD_TIME < g.flight.currentTime && g.flight.isDataSaved)
    decreases |rs|
  {
    if |rs| == 0 || rs[0].apoapsis >= TARGET_APOAPSIS {
      ConcatNothing(f.records, rs, f.startTime);
    } else if RECORD_TIME < f.currentTime {
      RecordingNeverResumes(f, rs);
      ConcatNothing(f.records, rs, f.startTime);
    } else {
      var f1 := AscentStep(f, rs[0]);
      RecordPassRecords(f, rs[0]);
      AscentRecordsPrefix(f1, rs[1..]);
      var g := AscentRun(f1, rs[1..]);
      assert AscentRun(f, rs) == Run(g.flight, g.passes + 1);
      var n := |g.flight.records.speed| - |f1.records.speed|;
      RecordedCons(f.records, rs, n, f.startTime);
    }
  }

  /** What a recording pass does to the records and the clock. */
  lemma RecordPassRecords(f: Flight, r: AscentReading)
    requires f.currentTime <= RECORD_TIME
    ensures AscentStep(f, r).records == Concat(f.records, Row(r, f.startTime))
    ensures |AscentStep(f, r).records.speed| == |f.records.speed| + 1
    ensures AscentStep(f, r).startTime == f.startTime
  {
  }

  /** Recording no passes leaves the records as they are. */
  lemma ConcatNothing(r: Records, rs: seq<AscentReading>, startTime: real)
    ensures Concat(r, Recorded(rs[..0], startTime)) == r
  {
    assert rs[..0] == [];
  }

  /** Recording one pass and then `n` more is recording `n + 1`. */
  lemma RecordedCons(r: Records, rs: seq<AscentReading>, n: nat, startTime: real)
    requires n < |rs|
    ensures Concat(Concat(r, Row(rs[0], startTime)), Recorded(rs[1..][..n], startTime))
         == Concat(r, Recorded(rs[..n + 1], startTime))
  {
    assert rs[..n + 1][1..] == rs[1..][..n];
  }

  /** The boosters are dropped during the ascent exactly when they were
      dropped before it or some pass found them empty. */
  lemma {:induction false} AscentSeparation(f: Flight, rs: seq<AscentReading>)
    ensures var g := AscentRun(f, rs);
      g.flight.srbSeparated <==> f.srbSeparated || exists k :: 0 <= k < g.passes && rs[k].srbFuel <= 0.0
    decreases |rs|
  {
    if |rs| > 0 && rs[0].apoapsis < TARGET_APOAPSIS {
      var rest := rs[1..];
      AscentSeparation(AscentStep(f, rs[0]), rest);
      assert forall k :: 0 <= k < |rest| ==> rest[k] == rs[k + 1];
    }
  }

  /** The boosters are dropped by the end of the coast exactly when they had
      been dropped before or some coasting pass was at 70 km or higher. */
  lemma {:induction false} CoastSeparation(f: Flight, burnStart: real, cs: seq<CoastReading>)
    ensures var g := CoastRun(f, burnStart, cs);
      g.flight.srbSeparated <==> f.srbSeparated || exists k :: 0 <= k < g.passes && cs[k].altitude >= COAST_STAGING_ALTITUDE
    decreases |cs|
  {
    if |cs| > 0 && burnStart - cs[0].ut > 0.0 {
      var rest := cs[1..];
      CoastSeparation(CoastStep(f, cs[0]), burnStart, rest);
      assert forall k :: 0 <= k < |rest| ==> rest[k] == cs[k + 1];
    }
  }

  /** The script's module-level variables. */
  class Ascent {
    var speedRecords: seq<real>
    var altitudeRecords: seq<real>
    var angleRecords: seq<real>
    var massRecords: seq<real>
    var timeRecords: seq<real>
    var startTime: real
    var currentTime: real
    var isDataSaved: bool
    var written: seq<Records>
    var srbSeparated: bool
    var separations: nat
    var pitchCommands: seq<real>

    function State(): Flight
      reads this
    {
      Flight(Records(speedRecords, altitudeRecords, angleRecords, massRecords, timeRecords),
             startTime, currentTime, isDataSaved, written, srbSeparated, separations, pitchCommands)
    }

    predicate Valid()
      reads this
    {
      Consistent(State())
    }

    /** The state at lines 68-72, from the clock read twice at launch. */
    constructor(launchUt: real, ut: real)
      ensures State() == Start(launchUt, ut) && Valid()
    {
      speedRecords, altitudeRecords, angleRecords, massRecords, timeRecords := [], [], [], [], [];
      startTime := launchUt;
      currentTime := ut - launchUt;
      isDataSaved := false;
      written := [];
      srbSeparated := false;
      separations := 0;
      pitchCommands := [];
    }

    /** One pass of the ascent loop's body. */
    method AscentPass(r: AscentReading)
      requires Valid()
      modifies this
      ensures State() == AscentStep(old(State()), r) && Valid()
    {
      AscentStepConsistent(State(), r);
      Record(r);
      Steer(r.altitude);
      Stage(r.srbFuel);
    }

    /** Lines 77-88. */
    method Record(r: AscentReading)
      modifies this
      ensures State() == RecordPass(old(State()), r)
    {
      if currentTime <= RECORD_TIME {
        currentTime := r.ut - startTime;
        speedRecords := speedRecords + [r.speed];
        altitudeRecords := altitudeRecords + [r.altitude];
        angleRecords := angleRecords + [90.0 - r.pitch];
        massRecords := massRecords + [r.mass];
        timeRecords := timeRecords + [currentTime];
      } else {
        if !isDataSaved {
          written := written + [Records(speedRecords, altitudeRecords, angleRecords, massRecords, timeRecords)];
          isDataSaved := true;
        }
      }
    }

    /** Lines 91-93. */
    method Steer(altitude: real)
      modifies this
      ensures State() == SteerPass(old(State()), altitude)
    {
      if TURN_START_ALTITUDE < altitude < TURN_END_ALTITUDE {
        var frac := (altitude - TURN_START_ALTITUDE) / (TURN_END_ALTITUDE - TURN_START_ALTITUDE);
        pitchCommands := pitchCommands + [90.0 - frac * 90.0];
      }
    }

    /** Lines 96-99. */
    method Stage(srbFuel: real)
      modifies this
      ensures State() == StagePass(old(State()), srbFuel)
    {
      if !srbSeparated && srbFuel <= 0.0 {
        separations := separations + 1;
        srbSeparated := true;
      }
    }

    /** The ascent loop, while the apoapsis is below the target. */
    method Ascend(rs: seq<AscentReading>) returns (passes: nat)
      requires Valid()
      modifies this
      ensures Run(State(), passes) == AscentRun(old(State()), rs) && Valid()
    {
      passes := 0;
      while passes < |rs| && rs[passes].apoapsis < TARGET_APOAPSIS
        invariant passes <= |rs| && Valid()
        invariant var rest := AscentRun(State(), rs[passes..]);
          AscentRun(old(State()), rs) == Run(rest.flight, passes + rest.passes)
        decreases |rs| - passes
      {
        assert rs[passes..][1..] == rs[passes + 1..];
        AscentPass(rs[passes]);
        passes := passes + 1;
      }
    }

    /** One pass of the coast loop's body. */
    method CoastPass(c: CoastReading)
      requires Valid()
      modifies this
      ensures State() == CoastStep(old(State()), c) && Valid()
    {
      if c.altitude >= COAST_STAGING_ALTITUDE && !srbSeparated {
        separations := separations + 1;
        srbSeparated := true;
      }
    }

    /** The coast loop, until the burn's start time. */
    method Coast(burnStart: real, cs: seq<CoastReading>) returns (passes: nat)
      requires Valid()
      modifies this
      ensures Run(State(), passes) == CoastRun(old(State()), burnStart, cs) && Valid()
    {
      passes := 0;
      while passes < |cs| && burnStart - cs[passes].ut > 0.0
        invariant passes <= |cs| && Valid()
        invariant var rest := CoastRun(State(), burnStart, cs[passes..]);
          CoastRun(old(State()), burnStart, cs) == Run(rest.flight, passes + rest.passes)
        decreases |cs| - passes
      {
        assert cs[passes..][1..] == cs[passes + 1..];
        CoastPass(cs[passes]);
        passes := passes + 1;
      }
    }
  }

  // ---------------------------------------------------------------------
  // Circularization (lines 108-115)

  /** The speed on an orbit of semi-major axis `axis` at distance `r`, by
      the vis-viva equation, `sqrt(mu * (2 / r - 1 / axis))`. */
  function VisViva(m: Libm, mu: real, r: real, axis: real): Result<real> {
    if r == 0.0 || axis == 0.0 then Failure(ZeroDivision)
    else Sqrt(m, mu * EnergyTerm(r, axis))
  }

  /** `2 / r - 1 / axis`, the orbit's specific energy over `mu` with the
      sign reversed and doubled. */
  function EnergyTerm(r: real, axis: real): real
    requires r != 0.0 && axis != 0.0
  {
    2.0 / r - 1.0 / axis
  }

  /** The prograde burn at apoapsis radius `r` that turns an orbit of
      semi-major axis `a1` into the circle of radius `r`. */
  function CircularizationDeltaV(m: Libm, mu: real, r: real, a1: real): Result<real> {
    var v1 :- VisViva(m, mu, r, a1);
    var v2 :- VisViva(m, mu, r, r);
    Success(v2 - v1)
  }

  /** From an apoapsis at least as far out as the semi-major axis, the
      circularizing burn is defined exactly when the apoapsis is at most
      twice the axis (a bound orbit), and then it is never retrograde. */
  lemma CircularizationPrograde(m: Libm, mu: real, r: real, a1: real)
    requires Lawful(m) && 0.0 < mu && 0.0 < a1 <= r
    ensures CircularizationDeltaV(m, mu, r, a1).Success? <==> r <= 2.0 * a1
    ensures CircularizationDeltaV(m, mu, r, a1).Success? ==> 0.0 <= CircularizationDeltaV(m, mu, r, a1).value
  {
    EnergyTermSign(r, a1);
    PosMul(mu, EnergyTerm(r, r));
    if r <= 2.0 * a1 {
      NonNegativeProduct(mu, EnergyTerm(r, a1));
      MulLe(EnergyTerm(r, a1), EnergyTerm(r, r), mu);
      MulCommutes(mu, EnergyTerm(r, a1));
      MulCommutes(mu, EnergyTerm(r, r));
      SqrtMonotone(m, mu * EnergyTerm(r, a1), mu * EnergyTerm(r, r));
    } else {
      MixedProduct(mu, EnergyTerm(r, a1));
    }
  }

  /** For `0 < a1 <= r` the energy term is at most its value on the circle,
      which is positive, and is non-negative exactly when `r <= 2 a1`. */
  lemma EnergyTermSign(r: real, a1: real)
    requires 0.0 < a1 <= r
    ensures EnergyTerm(r, a1) <= EnergyTerm(r, r)
    ensures 0.0 < EnergyTerm(r, r)
    ensures 0.0 <= EnergyTerm(r, a1) <==> r <= 2.0 * a1
  {
    ReciprocalOrder(a1, r);
    DivAsProduct(2.0, r);
    DivPos(1.0, r);
    TwiceReciprocal(a1);
    if r <= 2.0 * a1 {
      ReciprocalOrder(r, 2.0 * a1);
    } else {
      ReciprocalStrict(2.0 * a1, r);
    }
  }

  /** Reciprocals of different positive numbers differ in the other order. */
  lemma ReciprocalStrict(x: real, y: real)
    requires 0.0 < x < y
    ensures 1.0 / y < 1.0 / x
  {
    DivByLarger(1.0, x, y);
  }
}
